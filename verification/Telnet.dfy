/**
 The byte stream of a serial proxy's client (pi/serial_proxy.py): data, telnet commands (RFC 854), option
 negotiation (RFC 855) and the COM-PORT subnegotiations of RFC 2217.

 Whether the serial line takes a setting is up to the line; a message to a connected client is sent whole.
 */
module Telnet {
  import opened Options
  import opened Bytes
  import opened Sequences

  const IAC: byte := 255
  const DONT: byte := 254
  const DO: byte := 253
  const WONT: byte := 252
  const WILL: byte := 251
  const SB: byte := 250
  const SE: byte := 240
  const COM_PORT_OPTION: byte := 44

  const SET_BAUDRATE: byte := 1
  const SET_DATASIZE: byte := 2
  const SET_PARITY: byte := 3
  const SET_STOPSIZE: byte := 4
  const SET_CONTROL: byte := 5

  /** What a client can say. */
  datatype Event =
    | Data(b: byte)
    | Command(code: byte)                            // no effect on the proxy
    | Negotiate(verb: byte, option: byte)
    | ComPort(sub: byte, payload: seq<byte>)

  predicate IsVerb(b: byte) {
    b in {DO, DONT, WILL, WONT}
  }

  // ----- the printer

  function Print(e: Event): seq<byte> {
    match e
    case Data(b) => if b == IAC then [IAC, IAC] else [b]
    case Command(code) => [IAC, code]
    case Negotiate(verb, option) => [IAC, verb, option]
    case ComPort(sub, payload) => [IAC, SB, COM_PORT_OPTION, sub] + payload + [IAC, SE]
  }

  function PrintAll(es: seq<Event>): seq<byte> {
    if es == [] then [] else Print(es[0]) + PrintAll(es[1..])
  }

  /** The end marker stands somewhere in `s`. */
  ghost predicate HasEnd(s: seq<byte>) {
    exists k :: 0 <= k < |s| - 1 && s[k] == IAC && s[k + 1] == SE
  }

  /** What a client can say and be understood; nothing doubles a 255 inside a subnegotiation. */
  ghost predicate Sayable(e: Event) {
    match e
    case Data(_) => true
    case Command(code) => code != IAC && code != SB && !IsVerb(code)
    case Negotiate(verb, _) => IsVerb(verb)
    case ComPort(sub, payload) => !HasEnd([sub] + payload)
  }

  // ----- the reader

  /** The first end marker at or after `from`. */
  function FindEnd(s: seq<byte>, from: nat): (at: Option<nat>)
    ensures at.Some? ==> from <= at.value < |s| - 1 && s[at.value] == IAC && s[at.value + 1] == SE
    ensures at.Some? ==> forall k :: from <= k < at.value ==> !(s[k] == IAC && s[k + 1] == SE)
    ensures at.None? ==> forall k :: from <= k < |s| - 1 ==> !(s[k] == IAC && s[k + 1] == SE)
    decreases |s| - from
  {
    if from + 1 >= |s| then None
    else if s[from] == IAC && s[from + 1] == SE then Some(from)
    else FindEnd(s, from + 1)
  }

  /** One event off the front of a buffer, the bytes it took, and whether more bytes could not change it. */
  datatype Item = Item(event: Event, length: nat, closed: bool)

  function Head(s: seq<byte>): (item: Item)
    requires s != []
    ensures 1 <= item.length <= |s|
  {
    if s[0] != IAC || |s| == 1 then Item(Data(s[0]), 1, s[0] != IAC)
    else if s[1] == IAC then Item(Data(IAC), 2, true)
    else if s[1] == SB then Subnegotiation(s)
    else if !IsVerb(s[1]) then Item(Command(s[1]), 2, true)
    else if |s| == 2 then Item(Command(s[1]), 2, false)
    else Item(Negotiate(s[1], s[2]), 3, true)
  }

  function Subnegotiation(s: seq<byte>): (item: Item)
    requires |s| >= 2 && s[0] == IAC && s[1] == SB
    ensures 1 <= item.length <= |s|
  {
    if |s| == 2 then Item(Command(SB), 2, false)
    else if s[2] != COM_PORT_OPTION then Item(Command(SB), 2, true)
    else
      match FindEnd(s, 3)
      case None => Item(Command(SB), 2, false)
      case Some(end) =>
        Item(if end == 3 then ComPort(0, []) else ComPort(s[3], s[4..end]), end + 2, true)
  }

  function Scan(s: seq<byte>): seq<Event> {
    if s == [] then [] else [Head(s).event] + Scan(s[Head(s).length..])
  }

  /** The data among events: what goes out on the serial line. */
  function DataOf(es: seq<Event>): seq<byte> {
    if es == [] then [] else (if es[0].Data? then [es[0].b] else []) + DataOf(es[1..])
  }

  // ----- the port

  datatype Parity = NoParity | Odd | Even | Mark | Space
  datatype StopBits = One | OneAndHalf | Two

  datatype Port = Port(baudrate: nat, bytesize: byte, parity: Parity, stopbits: StopBits, dtr: bool, rts: bool) {
    predicate Valid() {
      baudrate < 0x1_0000_0000
    }
  }

  function U32(s: seq<byte>): nat
    requires |s| >= 4
  {
    0x1_0000 * U16(s, 0) + U16(s, 2)
  }

  function PutU32(n: nat): (bs: seq<byte>)
    requires n < 0x1_0000_0000
    ensures |bs| == 4 && U32(bs) == n
  {
    PutU16(n / 0x1_0000) + PutU16(n % 0x1_0000)
  }

  function ParityOf(b: byte): Parity {
    match b
    case 2 => Odd
    case 3 => Even
    case 4 => Mark
    case 5 => Space
    case _ => NoParity
  }

  function ParityCode(p: Parity): byte {
    match p
    case NoParity => 1
    case Odd => 2
    case Even => 3
    case Mark => 4
    case Space => 5
  }

  function StopBitsOf(b: byte): StopBits {
    match b
    case 2 => Two
    case 3 => OneAndHalf
    case _ => One
  }

  /** The code of the number of stop bits, after that number lost its fraction. */
  function StopBitsCode(s: StopBits): byte {
    if s == Two then 2 else 1
  }

  /** The settings that a command puts on the line, if it puts any. */
  function Wanted(port: Port, sub: byte, payload: seq<byte>): Option<Port> {
    if sub == SET_BAUDRATE && |payload| >= 4 then
      if U32(payload) > 0 then Some(port.(baudrate := U32(payload))) else None
    else if payload == [] then None
    else if sub == SET_DATASIZE then
      if 5 <= payload[0] <= 8 then Some(port.(bytesize := payload[0])) else None
    else if sub == SET_PARITY then Some(port.(parity := ParityOf(payload[0])))
    else if sub == SET_STOPSIZE then Some(port.(stopbits := StopBitsOf(payload[0])))
    else if sub == SET_CONTROL then
      match payload[0]
      case 8 => Some(port.(dtr := true))
      case 9 => Some(port.(dtr := false))
      case 11 => Some(port.(rts := true))
      case 12 => Some(port.(rts := false))
      case _ => None
    else None
  }

  /** The payload of the answer, `port` being as the command left it. */
  function AnswerOf(port: Port, sub: byte, payload: seq<byte>): seq<byte>
    requires port.Valid()
  {
    if sub == SET_BAUDRATE && |payload| >= 4 then PutU32(port.baudrate)
    else if payload == [] then [0]
    else if sub == SET_DATASIZE then [port.bytesize]
    else if sub == SET_PARITY then [ParityCode(port.parity)]
    else if sub == SET_STOPSIZE then [StopBitsCode(port.stopbits)]
    else if sub == SET_CONTROL then payload[..1]
    else payload
  }

  lemma WantedIsValid(port: Port, sub: byte, payload: seq<byte>)
    requires port.Valid() && Wanted(port, sub, payload).Some?
    ensures Wanted(port, sub, payload).value.Valid()
  {
    if |payload| >= 4 {
      assert U32(payload) < 0x1_0000_0000;
    }
  }

  /** The line's response to a setting: it raises an error before or after the setting is on record. */
  datatype Response = Takes | Raises(recorded: bool)

  /** The line: its response to the n-th setting it is given, from the old settings to the new. */
  type Line = (nat, Port, Port) -> Response

  // ----- the proxy

  datatype State = State(port: Port, settings: nat, connected: bool, sent: seq<seq<byte>>) {
    predicate Valid() {
      port.Valid()
    }

    function Send(message: seq<byte>): State {
      if connected then this.(sent := sent + [message]) else this
    }

    /** A setting put on the line. */
    function Put(wanted: Port, line: Line): State {
      this.(settings := settings + 1, port := if line(settings, port, wanted) == Raises(false) then port else wanted)
    }
  }

  /** A command with a code above 155 has no answer: its code plus 100 is no byte. */
  function Answered(s: State, sub: byte, payload: seq<byte>): State {
    if sub as int + 100 < 256 then s.Send([IAC, SB, COM_PORT_OPTION, sub as int + 100] + payload + [IAC, SE]) else s
  }

  /** The line raises an error at this command. */
  predicate Refused(s: State, sub: byte, payload: seq<byte>, line: Line) {
    var wanted := Wanted(s.port, sub, payload);
    wanted.Some? && line(s.settings, s.port, wanted.value).Raises?
  }

  /** The port after a command; one that the line refuses gets no answer. */
  function Obey(s: State, sub: byte, payload: seq<byte>, line: Line): (s': State)
    requires s.Valid()
    ensures s'.Valid()
  {
    match Wanted(s.port, sub, payload)
    case None => Answered(s, sub, AnswerOf(s.port, sub, payload))
    case Some(wanted) =>
      WantedIsValid(s.port, sub, payload);
      var s1 := s.Put(wanted, line);
      if Refused(s, sub, payload, line) then s1 else Answered(s1, sub, AnswerOf(s1.port, sub, payload))
  }

  function Perform(s: State, e: Event, line: Line): (s': State)
    requires s.Valid()
    ensures s'.Valid()
  {
    match e
    case Negotiate(verb, option) =>
      if option != COM_PORT_OPTION then s
      else if verb == DO then s.Send([IAC, WILL, COM_PORT_OPTION])
      else if verb == WILL then s.Send([IAC, DO, COM_PORT_OPTION])
      else s
    case ComPort(sub, payload) => Obey(s, sub, payload, line)
    case _ => s
  }

  function PerformAll(s: State, es: seq<Event>, line: Line): (s': State)
    requires s.Valid()
    ensures s'.Valid()
    decreases |es|
  {
    if es == [] then s else PerformAll(Perform(s, es[0], line), es[1..], line)
  }

  class Proxy {
    var baudrate: nat
    var bytesize: byte
    var parity: Parity
    var stopbits: StopBits
    var dtr: bool
    var rts: bool
    var settings: nat
    var connected: bool
    var sent: seq<seq<byte>>

    function Settings(): Port
      reads this
    {
      Port(baudrate, bytesize, parity, stopbits, dtr, rts)
    }

    function Now(): State
      reads this
    {
      State(Settings(), settings, connected, sent)
    }

    method SendTelnet(verb: byte, option: byte)
      modifies this`sent
      ensures Now() == old(Now()).Send([IAC, verb, option])
    {
      if connected {
        sent := sent + [[IAC, verb, option]];
      }
    }

    method SendComPortOption(code: int, data: seq<byte>)
      requires 100 <= code < 356
      modifies this`sent
      ensures Now() == Answered(old(Now()), code - 100, data)
    {
      if connected && code < 256 {
        sent := sent + [[IAC, SB, COM_PORT_OPTION, code] + data + [IAC, SE]];
      }
    }

    /** Puts settings on the line, field by field as the line records them. */
    method Assign(wanted: Port, line: Line) returns (taken: bool)
      modifies this
      ensures Now() == old(Now()).Put(wanted, line)
      ensures Settings() == old(Settings()) || Settings() == wanted
      ensures taken == line(old(settings), old(Settings()), wanted).Takes?
    {
      var response := line(settings, Settings(), wanted);
      settings := settings + 1;
      taken := response.Takes?;
      if response == Raises(false) {
        return;
      }
      baudrate, bytesize, parity, stopbits := wanted.baudrate, wanted.bytesize, wanted.parity, wanted.stopbits;
      dtr, rts := wanted.dtr, wanted.rts;
    }

    method HandleComPortOption(sub: byte, data: seq<byte>, line: Line)
      requires Now().Valid()
      modifies this
      ensures Now() == Obey(old(Now()), sub, data, line)
    {
      hide U32, Answered, State.Put;
      var code := sub as int + 100;
      var taken := true;
      if Wanted(Settings(), sub, data).Some? {
        WantedIsValid(Settings(), sub, data);
      }
      if sub == SET_BAUDRATE && |data| >= 4 {
        if U32(data) > 0 {
          taken := Assign(Settings().(baudrate := U32(data)), line);
        }
        if taken {
          SendComPortOption(code, PutU32(baudrate));
        }
      } else if sub == SET_DATASIZE && |data| >= 1 {
        if data[0] >= 5 && data[0] <= 8 {
          taken := Assign(Settings().(bytesize := data[0]), line);
        }
        if taken {
          SendComPortOption(code, [bytesize]);
        }
      } else if sub == SET_PARITY && |data| >= 1 {
        taken := Assign(Settings().(parity := ParityOf(data[0])), line);
        if taken {
          SendComPortOption(code, [ParityCode(parity)]);
        }
      } else if sub == SET_STOPSIZE && |data| >= 1 {
        taken := Assign(Settings().(stopbits := StopBitsOf(data[0])), line);
        if taken {
          SendComPortOption(code, [StopBitsCode(stopbits)]);
        }
      } else if sub == SET_CONTROL && |data| >= 1 {
        HandleControl(sub, data, line);
      } else {
        SendComPortOption(code, if data == [] then [0] else data);
      }
    }

    method HandleControl(sub: byte, data: seq<byte>, line: Line)
      requires Now().Valid() && sub == SET_CONTROL && |data| >= 1
      modifies this
      ensures Now() == Obey(old(Now()), sub, data, line)
    {
      hide Answered, State.Put;
      var control := data[0];
      assert data[..1] == [control];
      var taken := true;
      if control == 8 {
        taken := Assign(Settings().(dtr := true), line);
      } else if control == 9 {
        taken := Assign(Settings().(dtr := false), line);
      } else if control == 11 {
        taken := Assign(Settings().(rts := true), line);
      } else if control == 12 {
        taken := Assign(Settings().(rts := false), line);
      }
      if taken {
        SendComPortOption(sub as int + 100, [control]);
      }
    }

    /** Handles one read: acts on every event in it, in order, and returns its data. */
    method HandleRfc2217(data: seq<byte>, line: Line) returns (output: seq<byte>)
      requires Now().Valid()
      modifies this
      ensures output == DataOf(Scan(data))
      ensures Now() == PerformAll(old(Now()), Scan(data), line)
    {
      hide Scan, DataOf, PerformAll, FindEnd, Obey, Head;
      var i := 0;
      output := [];
      assert data[0..] == data;
      Done(data);
      while i < |data|
        invariant 0 <= i <= |data|
        invariant output + DataOf(Scan(data[i..])) == DataOf(Scan(data))
        invariant Now().Valid()
        invariant PerformAll(Now(), Scan(data[i..]), line) == PerformAll(old(Now()), Scan(data), line)
        decreases |data| - i
      {
        ghost var item := Head(data[i..]);
        Advance(data, i, Now(), line);
        HeadAt(data, i);
        if data[i] == IAC && i + 1 < |data| {
          var cmd := data[i + 1];
          if cmd == IAC {
            output := output + [IAC];
            i := i + 2;
            continue;
          }
          if cmd == SB && i + 2 < |data| {
            if data[i + 2] == COM_PORT_OPTION {
              var end := FindSe(data, i + 3);
              if end != -1 {
                var sub: byte := if i + 3 < end then data[i + 3] else 0;
                var subdata := if i + 4 <= end then data[i + 4..end] else [];
                HandleComPortOption(sub, subdata, line);
                i := end + 2;
                continue;
              }
            }
            i := i + 2;
            continue;
          }
          if IsVerb(cmd) {
            if i + 2 < |data| {
              var option := data[i + 2];
              if cmd == DO && option == COM_PORT_OPTION {
                SendTelnet(WILL, COM_PORT_OPTION);
              } else if cmd == WILL && option == COM_PORT_OPTION {
                SendTelnet(DO, COM_PORT_OPTION);
              }
              i := i + 3;
              continue;
            }
          }
          i := i + 2;
        } else {
          output := output + [data[i]];
          i := i + 1;
        }
      }
    }
  }

  /** The index of the first end marker from `from` on, -1 if there is none. */
  method FindSe(data: seq<byte>, from: nat) returns (at: int)
    ensures at == if FindEnd(data, from).Some? then FindEnd(data, from).value else -1
  {
    var k := from;
    while k + 1 < |data|
      invariant FindEnd(data, k) == FindEnd(data, from)
      decreases |data| - k
    {
      if data[k] == IAC && data[k + 1] == SE {
        return k;
      }
      k := k + 1;
    }
    at := -1;
  }

  lemma {:induction false} SameEnd(data: seq<byte>, i: nat, from: nat)
    requires i <= |data|
    ensures FindEnd(data[i..], from) == match FindEnd(data, i + from) case None => None case Some(end) => Some(end - i)
    decreases |data| - from
  {
    if i + from + 1 < |data| {
      SameEnd(data, i, from + 1);
    }
  }

  lemma Done(data: seq<byte>)
    ensures data[|data|..] == [] && Scan([]) == [] && DataOf([]) == []
    ensures forall s: State, line :: s.Valid() ==> PerformAll(s, [], line) == s
  {
  }

  /** The next event, in the positions of the whole buffer. */
  lemma HeadAt(data: seq<byte>, i: nat)
    requires i < |data|
    ensures var item := Head(data[i..]);
            if data[i] != IAC || i + 1 == |data| then item.event == Data(data[i]) && item.length == 1
            else if data[i + 1] == IAC then item.event == Data(IAC) && item.length == 2
            else if data[i + 1] == SB && i + 2 < |data| && data[i + 2] == COM_PORT_OPTION
                    && FindEnd(data, i + 3).Some? then
              var end := FindEnd(data, i + 3).value;
              && item.event.ComPort? && item.event.sub == (if i + 3 < end then data[i + 3] else 0)
              && item.event.payload == (if i + 4 <= end then data[i + 4..end] else [])
              && i + item.length == end + 2
            else if IsVerb(data[i + 1]) && i + 2 < |data| then
              item.event == Negotiate(data[i + 1], data[i + 2]) && item.length == 3
            else item.event == Command(data[i + 1]) && item.length == 2
  {
    hide FindEnd;
    if i + 2 < |data| {
      SameEnd(data, i, 3);
      if FindEnd(data, i + 3).Some? {
        var end := FindEnd(data, i + 3).value;
        if i + 4 <= end {
          assert data[i..][4..end - i] == data[i + 4..end];
        }
      }
    }
  }

  /** The reader's position `i` and its next position, one event later. */
  lemma Advance(data: seq<byte>, i: nat, s: State, line: Line)
    requires i < |data| && s.Valid()
    ensures var item := Head(data[i..]);
            && i + item.length <= |data|
            && DataOf(Scan(data[i..])) ==
                (if item.event.Data? then [item.event.b] else []) + DataOf(Scan(data[i + item.length..]))
            && PerformAll(s, Scan(data[i..]), line) ==
                PerformAll(Perform(s, item.event, line), Scan(data[i + item.length..]), line)
  {
    var item := Head(data[i..]);
    assert data[i..][item.length..] == data[i + item.length..];
    assert Scan(data[i..])[1..] == Scan(data[i + item.length..]);
  }

  // ----- the reader undoes the printer

  lemma EndInside(sub: byte, payload: seq<byte>, rest: seq<byte>)
    ensures var s := Print(ComPort(sub, payload)) + rest;
            && |s| == 6 + |payload| + |rest| && s[..3] == [IAC, SB, COM_PORT_OPTION]
            && s[3..4 + |payload|] == [sub] + payload
            && s[4 + |payload|] == IAC && s[5 + |payload|] == SE && s[6 + |payload|..] == rest
  {
  }

  /** The first event of what was printed is the event itself exactly when it was sayable. */
  lemma HeadOfPrint(e: Event, rest: seq<byte>)
    requires e.ComPort? || Sayable(e)
    ensures var item := Head(Print(e) + rest);
            item == Item(e, |Print(e)|, true) <==> Sayable(e)
  {
    if e.ComPort? {
      EndOfPrint(e.sub, e.payload, rest);
    }
  }

  lemma EndOfPrint(sub: byte, payload: seq<byte>, rest: seq<byte>)
    ensures var s := Print(ComPort(sub, payload)) + rest;
            Subnegotiation(s) == Item(ComPort(sub, payload), 6 + |payload|, true) <==> !HasEnd([sub] + payload)
  {
    hide HasEnd, Print, FindEnd;
    EndInside(sub, payload, rest);
    WholeWire(Print(ComPort(sub, payload)) + rest, sub, payload);
  }

  lemma WholeWire(s: seq<byte>, sub: byte, payload: seq<byte>)
    requires |s| >= 6 + |payload| && s[..3] == [IAC, SB, COM_PORT_OPTION] && s[3..4 + |payload|] == [sub] + payload
    requires s[4 + |payload|] == IAC && s[5 + |payload|] == SE
    ensures Subnegotiation(s) == Item(ComPort(sub, payload), 6 + |payload|, true) <==> !HasEnd([sub] + payload)
  {
    hide HasEnd, FindEnd;
    var end := 4 + |payload|;
    FirstEnd(s, sub, payload);
    assert s[3..end][0] == s[3] == sub;
    assert s[4..end] == s[3..end][1..] == payload;
  }

  lemma FirstEnd(s: seq<byte>, sub: byte, payload: seq<byte>)
    requires |s| >= 6 + |payload| && s[3..4 + |payload|] == [sub] + payload
    requires s[4 + |payload|] == IAC && s[5 + |payload|] == SE
    ensures FindEnd(s, 3).Some? && FindEnd(s, 3).value <= 4 + |payload|
    ensures FindEnd(s, 3).value == 4 + |payload| <==> !HasEnd([sub] + payload)
  {
    var body := [sub] + payload;
    var end := 4 + |payload|;
    assert FindEnd(s, 3).Some?;
    assert forall k :: 0 <= k < |body| ==> s[3..end][k] == body[k];
    if HasEnd(body) {
      var k :| 0 <= k < |body| - 1 && body[k] == IAC && body[k + 1] == SE;
      assert s[3 + k] == IAC && s[3 + k + 1] == SE;
    } else {
      forall k | 3 <= k < end ensures !(s[k] == IAC && s[k + 1] == SE) {
        if k + 1 < end {
          assert s[k] == body[k - 3] && s[k + 1] == body[k - 2];
        }
      }
    }
  }

  /** Whatever was said is understood, event by event, and the stream goes on behind it. */
  lemma {:induction false} ScanUndoesPrint(es: seq<Event>, rest: seq<byte>)
    requires forall e :: e in es ==> Sayable(e)
    ensures Scan(PrintAll(es) + rest) == es + Scan(rest)
  {
    hide Head, Print, Sayable;
    if es == [] {
      assert PrintAll(es) + rest == rest;
    } else {
      var more := PrintAll(es[1..]) + rest;
      assert PrintAll(es) + rest == Print(es[0]) + more;
      HeadOfPrint(es[0], more);
      assert (Print(es[0]) + more)[|Print(es[0])|..] == more;
      ScanUndoesPrint(es[1..], rest);
    }
  }

  lemma ComPortHead(s: seq<byte>)
    requires |s| > 3 && Head(s).event.ComPort? && s[3] == Head(s).event.sub
    ensures Head(s).length == 6 + |Head(s).event.payload| && Head(s).closed
  {
  }

  /** A subnegotiation is understood exactly when no end marker is inside it, whatever follows. */
  lemma Misread(sub: byte, payload: seq<byte>, rest: seq<byte>)
    ensures Scan(Print(ComPort(sub, payload)) + rest) == [ComPort(sub, payload)] + Scan(rest) <==>
        !HasEnd([sub] + payload)
  {
    hide Head, HasEnd;
    var e := ComPort(sub, payload);
    var s := Print(e) + rest;
    HeadOfPrint(e, rest);
    assert s[|Print(e)|..] == rest;
    assert s[3] == sub;
    assert Scan(s)[0] == Head(s).event;
    if Head(s).event == e {
      ComPortHead(s);
      assert Head(s) == Item(e, |Print(e)|, true);
    }
  }

  // ----- cutting the stream into reads

  /** Every event of `s` was seen whole. */
  predicate Closed(s: seq<byte>) {
    s == [] || (Head(s).closed && Closed(s[Head(s).length..]))
  }

  /** How a client could go on after an event that was cut. */
  function Tail(s: seq<byte>): seq<byte> {
    if s == [] then []
    else if Head(s).closed then Tail(s[Head(s).length..])
    else if |s| == 1 then [IAC]
    else if s[1] == SB then (if |s| == 2 then [COM_PORT_OPTION, IAC, SE] else [IAC, SE])
    else [COM_PORT_OPTION]
  }

  lemma HeadStays(s: seq<byte>, t: seq<byte>)
    requires s != [] && Head(s).closed
    ensures Head(s + t) == Head(s)
  {
    if |s| > 2 {
      assert forall k :: 0 <= k < |s| ==> (s + t)[k] == s[k];
      if FindEnd(s, 3).Some? {
        assert FindEnd(s + t, 3).Some?;
        assert FindEnd(s + t, 3).value == FindEnd(s, 3).value;
        var end := FindEnd(s, 3).value;
        if end > 3 {
          assert (s + t)[4..end] == s[4..end];
        }
      }
    }
  }

  /** Reading in two pieces cut where every event is whole is reading in one. */
  lemma {:induction false} CutBetweenEvents(s: seq<byte>, t: seq<byte>)
    requires Closed(s)
    ensures Scan(s + t) == Scan(s) + Scan(t)
  {
    if s == [] {
      assert s + t == t;
    } else {
      HeadStays(s, t);
      var n := Head(s).length;
      assert (s + t)[n..] == s[n..] + t;
      CutBetweenEvents(s[n..], t);
    }
  }

  lemma {:induction false} PrintedIsClosed(es: seq<Event>)
    requires forall e :: e in es ==> Sayable(e)
    ensures Closed(PrintAll(es))
  {
    hide Head, Print, Sayable;
    if es != [] {
      var more := PrintAll(es[1..]);
      HeadOfPrint(es[0], more);
      assert (Print(es[0]) + more)[|Print(es[0])|..] == more;
      PrintedIsClosed(es[1..]);
    }
  }

  lemma {:induction false} DataOfConcat(es: seq<Event>, fs: seq<Event>)
    ensures DataOf(es + fs) == DataOf(es) + DataOf(fs)
  {
    if es == [] {
      assert es + fs == fs;
    } else {
      var all := es + fs;
      assert all[0] == es[0] && all[1..] == es[1..] + fs;
      DataOfConcat(es[1..], fs);
    }
  }

  lemma {:induction false} PerformConcat(s: State, es: seq<Event>, fs: seq<Event>, line: Line)
    requires s.Valid()
    ensures PerformAll(s, es + fs, line) == PerformAll(PerformAll(s, es, line), fs, line)
    decreases |es|
  {
    if es == [] {
      assert es + fs == fs;
    } else {
      var all := es + fs;
      assert all[0] == es[0] && all[1..] == es[1..] + fs;
      PerformConcat(Perform(s, es[0], line), es[1..], fs, line);
    }
  }

  lemma {:induction false} OutputNoLonger(s: seq<byte>)
    ensures |DataOf(Scan(s))| <= |s|
  {
    if s != [] {
      hide Head;
      OutputNoLonger(s[Head(s).length..]);
    }
  }

  lemma StartsWithData(s: seq<byte>)
    requires s != [] && s[0] != IAC
    ensures |DataOf(Scan(s))| >= 1
  {
  }

  lemma WholeSubnegotiation(s: seq<byte>)
    requires |s| >= 5 && s[0] == IAC && s[1] == SB && s[2] == COM_PORT_OPTION && FindEnd(s, 3) == Some(|s| - 2)
    ensures DataOf(Scan(s)) == []
  {
    var item := Head(s);
    assert item.length == |s| && item.event.ComPort? && s[|s|..] == [];
    assert Scan(s) == [item.event];
  }

  /** An event that was cut: its pieces give more data than the whole. */
  lemma CutEvent(s: seq<byte>)
    requires s != [] && !Head(s).closed
    ensures |DataOf(Scan(s + Tail(s)))| < |DataOf(Scan(s))| + |DataOf(Scan(Tail(s)))|
  {
    var t := Tail(s);
    var all := s + t;
    if |s| == 1 {
      assert all == [IAC, IAC] && all[2..] == [];
      assert Scan(all) == [Data(IAC)] && Scan(s) == [Data(IAC)] && Scan(t) == [Data(IAC)];
    } else if s[1] != SB {
      assert all[3..] == [] && Head(all).event == Negotiate(s[1], t[0]);
      assert Scan(all) == [Negotiate(s[1], t[0])];
      StartsWithData(t);
    } else {
      var end := if |s| == 2 then 3 else |s|;
      assert FindEnd(all, 3) == Some(end) by {
        assert all[end] == IAC && all[end + 1] == SE;
        assert forall k :: 3 <= k < |s| ==> all[k] == s[k];
      }
      WholeSubnegotiation(all);
      if |s| == 2 {
        StartsWithData(t);
      } else {
        StartsWithData(s[2..]);
        assert Scan(s) == [Command(SB)] + Scan(s[2..]);
        DataOfConcat([Command(SB)], Scan(s[2..]));
      }
    }
  }

  lemma {:induction false} CutMatters(s: seq<byte>)
    requires !Closed(s)
    ensures |DataOf(Scan(s + Tail(s)))| < |DataOf(Scan(s))| + |DataOf(Scan(Tail(s)))|
  {
    hide Head;
    if !Head(s).closed {
      CutEvent(s);
    } else {
      var t := Tail(s);
      HeadStays(s, t);
      var n := Head(s).length;
      assert (s + t)[n..] == s[n..] + t;
      CutMatters(s[n..]);
    }
  }

  /** The proxy reads each buffer on its own.  A cut of the stream behind `s` is safe, whatever comes next,
      exactly when every event of `s` is whole. */
  lemma SafeCut(s: seq<byte>)
    ensures Closed(s) <==> forall t :: DataOf(Scan(s + t)) == DataOf(Scan(s)) + DataOf(Scan(t))
  {
    hide DataOf, Scan, Closed, Tail;
    if Closed(s) {
      forall t ensures DataOf(Scan(s + t)) == DataOf(Scan(s)) + DataOf(Scan(t)) {
        CutBetweenEvents(s, t);
        DataOfConcat(Scan(s), Scan(t));
      }
    } else {
      CutMatters(s);
    }
  }

  lemma PrintConcat(es: seq<Event>, fs: seq<Event>)
    ensures PrintAll(es + fs) == PrintAll(es) + PrintAll(fs)
  {
    hide Print;
    if es == [] {
      assert es + fs == fs;
    } else {
      var all := es + fs;
      assert all[0] == es[0] && all[1..] == es[1..] + fs;
      PrintConcat(es[1..], fs);
      Regroup(Print(es[0]), PrintAll(es[1..]), PrintAll(fs));
    }
  }

  /** What a client says may be cut between any two events: the part before the cut gives its own data, and what is
      read behind it, the rest of what was said or anything else, is read as if it stood alone. */
  lemma PrintedCutIsSafe(es: seq<Event>, k: nat)
    requires k <= |es| && forall e :: e in es ==> Sayable(e)
    ensures PrintAll(es) == PrintAll(es[..k]) + PrintAll(es[k..])
    ensures Closed(PrintAll(es[..k]))
    ensures forall t :: DataOf(Scan(PrintAll(es[..k]) + t)) == DataOf(es[..k]) + DataOf(Scan(t))
  {
    hide Print, PrintAll, DataOf, Scan, Closed, Sayable;
    assert es[..k] + es[k..] == es;
    PrintConcat(es[..k], es[k..]);
    assert forall e :: e in es[..k] ==> e in es;
    PrintedIsClosed(es[..k]);
    ScanOfPrint(es[..k]);
    SafeCut(PrintAll(es[..k]));
  }

  /** Half of a doubled 255 in each of two reads: the serial line gets two bytes for the one that was sent. */
  lemma CutInsideEscape()
    ensures DataOf(Scan([IAC, IAC])) == [IAC] && DataOf(Scan([IAC])) + DataOf(Scan([IAC])) == [IAC, IAC]
  {
    assert [IAC, IAC][2..] == [];
    assert Scan([IAC, IAC]) == [Data(IAC)] && Scan([IAC]) == [Data(IAC)];
  }

  // ----- a whole session

  function Output(received: seq<seq<byte>>): seq<byte> {
    if received == [] then [] else DataOf(Scan(received[0])) + Output(received[1..])
  }

  function StateAfter(s: State, received: seq<seq<byte>>, line: Line): State
    requires s.Valid()
    decreases |received|
  {
    if received == [] then s else StateAfter(PerformAll(s, Scan(received[0]), line), received[1..], line)
  }

  function Flatten<T>(parts: seq<seq<T>>): seq<T> {
    if parts == [] then [] else parts[0] + Flatten(parts[1..])
  }

  function PrintParts(said: seq<seq<Event>>): (received: seq<seq<byte>>) {
    if said == [] then [] else [PrintAll(said[0])] + PrintParts(said[1..])
  }

  /** What a client says in reads of whole events reaches the serial line and the port, all of it and in order. */
  lemma {:induction false} SessionIsObeyed(s: State, said: seq<seq<Event>>, line: Line)
    requires s.Valid() && forall i, j :: 0 <= i < |said| && 0 <= j < |said[i]| ==> Sayable(said[i][j])
    ensures Output(PrintParts(said)) == DataOf(Flatten(said))
    ensures StateAfter(s, PrintParts(said), line) == PerformAll(s, Flatten(said), line)
    decreases |said|
  {
    hide Sayable, Print, PrintAll, Scan, Perform, PerformAll, DataOf;
    if said == [] {
      Nothing(s, line);
    } else {
      ScanOfPrint(said[0]);
      assert PrintParts(said)[1..] == PrintParts(said[1..]);
      DataOfConcat(said[0], Flatten(said[1..]));
      PerformConcat(s, said[0], Flatten(said[1..]), line);
      SessionIsObeyed(PerformAll(s, said[0], line), said[1..], line);
    }
  }

  lemma Nothing(s: State, line: Line)
    requires s.Valid()
    ensures DataOf([]) == [] && PerformAll(s, [], line) == s
  {
  }

  lemma ScanOfPrint(es: seq<Event>)
    requires forall e :: e in es ==> Sayable(e)
    ensures Scan(PrintAll(es)) == es
  {
    ScanUndoesPrint(es, []);
    assert PrintAll(es) + [] == PrintAll(es);
  }

  // ----- the answers

  /** A value request of RFC 2217 and how its answer states a setting; stop bits code 3 is one and a half. */
  predicate States(port: Port, sub: byte, answer: seq<byte>) {
    if sub == SET_BAUDRATE then |answer| == 4 && U32(answer) == port.baudrate
    else if sub == SET_DATASIZE then answer == [port.bytesize]
    else if sub == SET_PARITY then answer != [] && 1 <= answer[0] <= 5 && ParityOf(answer[0]) == port.parity
    else sub == SET_STOPSIZE && answer != [] && 1 <= answer[0] <= 3
         && (match answer[0] case 1 => One case 2 => Two case _ => OneAndHalf) == port.stopbits
  }

  predicate LongEnough(sub: byte, payload: seq<byte>) {
    |payload| >= if sub == SET_BAUDRATE then 4 else 1
  }

  /** Every answer to a setting states the setting the port now has, except for one and a half stop bits. */
  lemma AnswerIsTrue(port: Port, sub: byte, payload: seq<byte>)
    requires port.Valid() && 1 <= sub <= 4 && LongEnough(sub, payload)
    ensures var wanted := Wanted(port, sub, payload);
            var port' := if wanted.Some? then wanted.value else port;
            port'.Valid() && (States(port', sub, AnswerOf(port', sub, payload)) <==>
                !(sub == SET_STOPSIZE && payload[0] == 3))
  {
    hide U32;
    if Wanted(port, sub, payload).Some? {
      WantedIsValid(port, sub, payload);
    }
  }

  /** A request for the current value, which is the value zero, must change nothing.  For parity and stop
      bits it does put another setting on the line, unless the port is at its default. */
  lemma QueryKeeps(port: Port, sub: byte, payload: seq<byte>)
    requires port.Valid() && 1 <= sub <= 4 && LongEnough(sub, payload)
    requires forall i :: 0 <= i < |payload| ==> payload[i] == 0
    ensures Wanted(port, sub, payload) in {None, Some(port)} <==>
            (sub == SET_PARITY ==> port.parity == NoParity) && (sub == SET_STOPSIZE ==> port.stopbits == One)
  {
    if sub == SET_BAUDRATE {
      assert U16(payload, 0) == 0 && U16(payload, 2) == 0;
    }
  }

  /** The payload's first byte is one of these codes. */
  predicate Names(payload: seq<byte>, codes: set<byte>) {
    payload != [] && payload[0] in codes
  }

  /** What RFC 2217 has a client say with its codes, setting by setting.  An unknown parity or stop size puts the
      default on the line; any other unknown value puts nothing. */
  function Meant(port: Port, sub: byte, payload: seq<byte>): Port {
    Port(
      if sub == 1 && |payload| >= 4 && payload[..4] != [0, 0, 0, 0]
      then 0x100_0000 * payload[0] as int + 0x1_0000 * payload[1] as int + 0x100 * payload[2] as int
           + payload[3] as int
      else port.baudrate,
      if sub == 2 && Names(payload, {5, 6, 7, 8}) then payload[0] else port.bytesize,
      if sub == 3 && payload != []
      then (if Names(payload, {1, 2, 3, 4, 5}) then [NoParity, Odd, Even, Mark, Space][payload[0] - 1] else NoParity)
      else port.parity,
      if sub == 4 && payload != []
      then (if Names(payload, {1, 2, 3}) then [One, Two, OneAndHalf][payload[0] - 1] else One)
      else port.stopbits,
      if sub == 5 && Names(payload, {8, 9}) then payload[0] == 8 else port.dtr,
      if sub == 5 && Names(payload, {11, 12}) then payload[0] == 11 else port.rts)
  }

  /** A command leaves every setting as it was meant, unless the line refuses it at once. */
  lemma CommandSets(s: State, sub: byte, payload: seq<byte>, line: Line)
    requires s.Valid()
    ensures var meant := Meant(s.port, sub, payload);
            Perform(s, ComPort(sub, payload), line).port ==
            if line(s.settings, s.port, meant) == Raises(false) then s.port else meant
  {
    hide U32, AnswerOf;
    if |payload| >= 4 {
      BaudCode(payload);
    }
  }

  lemma BaudCode(payload: seq<byte>)
    requires |payload| >= 4
    ensures U32(payload) ==
            0x100_0000 * payload[0] as int + 0x1_0000 * payload[1] as int + 0x100 * payload[2] as int
            + payload[3] as int
    ensures U32(payload) == 0 <==> payload[..4] == [0, 0, 0, 0]
  {
    assert payload[..4] == [payload[0], payload[1], payload[2], payload[3]];
  }

  /** When a command puts a setting on the line at all. */
  lemma CommandAsks(s: State, sub: byte, payload: seq<byte>, line: Line)
    requires s.Valid()
    ensures Perform(s, ComPort(sub, payload), line).settings - s.settings ==
            if || (sub == 1 && |payload| >= 4 && payload[..4] != [0, 0, 0, 0])
               || (sub == 2 && Names(payload, {5, 6, 7, 8}))
               || (sub in {3, 4} && payload != [])
               || (sub == 5 && Names(payload, {8, 9, 11, 12}))
            then 1 else 0
  {
    hide U32, AnswerOf;
    if |payload| >= 4 {
      BaudCode(payload);
    }
  }

  /** What a connected client is answered, on the wire, where the answer states no setting: a control request comes
      back as its first byte, a missing payload as a zero, anything else as it is. */
  lemma CommandEchoes(s: State, sub: byte, payload: seq<byte>, line: Line)
    requires s.Valid() && s.connected && sub < 156
    requires sub == 0 || sub > 4 || !LongEnough(sub, payload)
    requires line(s.settings, s.port, Meant(s.port, sub, payload)).Takes?
    ensures Perform(s, ComPort(sub, payload), line).sent == s.sent +
            [[255, 250, 44, sub as int + 100]
             + (if payload == [] then [0] else if sub == 5 then [payload[0]] else payload)
             + [255, 240]]
  {
    if payload != [] {
      assert payload[..1] == [payload[0]];
    }
    assert sub != 5 || payload == [] ==> Meant(s.port, sub, payload) == s.port;
  }

  /** Option 44 is the only one agreed on: DO is answered WILL and WILL is answered DO.  Nothing else that a client can
      say outside a subnegotiation has any effect. */
  lemma NegotiationAnswers(s: State, e: Event, line: Line)
    requires s.Valid() && !e.ComPort?
    ensures Perform(s, e, line) ==
            if s.connected && e == Negotiate(253, 44) then s.(sent := s.sent + [[255, 251, 44]])
            else if s.connected && e == Negotiate(251, 44) then s.(sent := s.sent + [[255, 253, 44]])
            else s
  {
  }

  /** One command, one answer: with the command's code plus 100, if that is a byte, a client is connected and the
      line took the setting. */
  lemma OneAnswer(s: State, sub: byte, payload: seq<byte>, line: Line)
    requires s.Valid()
    ensures var s' := Perform(s, ComPort(sub, payload), line);
            if s.connected && sub < 156 && !Refused(s, sub, payload, line) then
              && |s'.sent| == |s.sent| + 1 && s'.sent[..|s.sent|] == s.sent
              && s'.sent[|s.sent|] == Print(ComPort(sub + 100, AnswerOf(s'.port, sub, payload)))
            else s'.sent == s.sent
  {
    hide Wanted, AnswerOf;
  }

  // ----- clients that double a 255 inside a subnegotiation, as RFC 855 asks

  function Doubled(s: seq<byte>): seq<byte> {
    if s == [] then [] else (if s[0] == IAC then [IAC, IAC] else [s[0]]) + Doubled(s[1..])
  }

  function PrintDoubled(sub: byte, payload: seq<byte>): seq<byte> {
    [IAC, SB, COM_PORT_OPTION] + (Doubled([sub] + payload) + [IAC, SE])
  }

  lemma {:induction false} DoubledPlain(s: seq<byte>)
    requires IAC !in s
    ensures Doubled(s) == s
  {
    if s != [] {
      DoubledPlain(s[1..]);
    }
  }

  /** A run of 255 at the front comes out twice as long. */
  lemma {:induction false} DoubledRun(s: seq<byte>, n: nat)
    requires n <= |s| && forall j :: 0 <= j < n ==> s[j] == IAC
    ensures 2 * n <= |Doubled(s)| && forall j :: 0 <= j < 2 * n ==> Doubled(s)[j] == IAC
  {
    if n > 0 {
      DoubledRun(s[1..], n - 1);
    }
  }

  /** What follows a 255 in a text that is the beginning of its own doubling is 255 throughout. */
  lemma {:induction false} OnlyIac(s: seq<byte>, d: seq<byte>, n: nat)
    requires d == Doubled(s) && |s| <= |d| + 1 && n <= |s|
    requires forall j :: 0 <= j < |s| ==> s[j] == if j == 0 then IAC else d[j - 1]
    ensures forall j :: 0 <= j < n ==> s[j] == IAC
  {
    hide Doubled;
    if n > 0 {
      OnlyIac(s, d, n - 1);
      DoubledRun(s, n - 1);
    }
  }

  lemma {:induction false} OwnDoubling(s: seq<byte>)
    requires IAC in s && |s| <= |Doubled(s)| && Doubled(s)[..|s|] == s
    ensures |s| < |Doubled(s)| && forall j :: |s| <= j < |Doubled(s)| ==> Doubled(s)[j] == IAC
  {
    var d, rest := Doubled(s), s[1..];
    assert forall j :: 0 <= j < |s| ==> d[..|s|][j] == d[j] == s[j];
    if s[0] == IAC {
      assert d == [IAC, IAC] + Doubled(rest);
      forall j | 0 <= j < |rest| ensures rest[j] == if j == 0 then IAC else Doubled(rest)[j - 1] {
        assert rest[j] == s[j + 1] == d[j + 1];
      }
      OnlyIac(rest, Doubled(rest), |rest|);
      AllIac(rest);
    } else {
      assert d == [s[0]] + Doubled(rest);
      assert Doubled(rest)[..|rest|] == rest;
      OwnDoubling(rest);
    }
  }

  lemma {:induction false} AllIac(s: seq<byte>)
    requires forall j :: 0 <= j < |s| ==> s[j] == IAC
    ensures |Doubled(s)| == 2 * |s| && forall j :: 0 <= j < |Doubled(s)| ==> Doubled(s)[j] == IAC
  {
    if s != [] {
      AllIac(s[1..]);
    }
  }

  /** A command of such a client is obeyed as it was meant, whatever follows, if and only if no 255 is in it. */
  lemma DoubledCommand(sub: byte, payload: seq<byte>, rest: seq<byte>)
    ensures Scan(PrintDoubled(sub, payload) + rest) == [ComPort(sub, payload)] + Scan(rest) <==> IAC !in [sub] + payload
  {
    hide Head, Doubled, Print, HasEnd, PrintDoubled;
    var body, wire := [sub] + payload, PrintDoubled(sub, payload) + rest;
    if IAC !in body {
      PlainIsPrinted(sub, payload);
      Misread(sub, payload, rest);
    } else {
      NotDoubled(sub, payload, rest);
      StartsWithHead(wire);
    }
  }

  lemma PlainIsPrinted(sub: byte, payload: seq<byte>)
    requires IAC !in [sub] + payload
    ensures PrintDoubled(sub, payload) == Print(ComPort(sub, payload)) && !HasEnd([sub] + payload)
  {
    DoubledPlain([sub] + payload);
  }

  lemma StartsWithHead(s: seq<byte>)
    ensures s != [] ==> Scan(s) != [] && Scan(s)[0] == Head(s).event
    ensures s == [] ==> Scan(s) == []
  {
    hide Head;
  }

  lemma NotDoubled(sub: byte, payload: seq<byte>, rest: seq<byte>)
    requires IAC in [sub] + payload
    ensures PrintDoubled(sub, payload) + rest != []
    ensures Head(PrintDoubled(sub, payload) + rest).event != ComPort(sub, payload)
  {
    hide Doubled, FindEnd;
    var wire := PrintDoubled(sub, payload) + rest;
    DoubledWire(sub, payload, rest);
    NotTheBody(wire, sub, payload);
  }

  lemma DoubledWire(sub: byte, payload: seq<byte>, rest: seq<byte>)
    ensures var d, wire := Doubled([sub] + payload), PrintDoubled(sub, payload) + rest;
            && |wire| >= 5 + |d| && wire[..3] == [IAC, SB, COM_PORT_OPTION] && wire[3..3 + |d|] == d
            && wire[3 + |d|] == IAC && wire[4 + |d|] == SE
  {
    hide Doubled;
  }

  lemma NotTheBody(wire: seq<byte>, sub: byte, payload: seq<byte>)
    requires var d := Doubled([sub] + payload);
             && |wire| >= 5 + |d| && wire[..3] == [IAC, SB, COM_PORT_OPTION] && wire[3..3 + |d|] == d
             && wire[3 + |d|] == IAC && wire[4 + |d|] == SE
    requires IAC in [sub] + payload
    ensures Head(wire).event != ComPort(sub, payload)
  {
    hide Doubled;
    var body, d := [sub] + payload, Doubled([sub] + payload);
    assert forall j :: 0 <= j < |d| ==> wire[3..3 + |d|][j] == d[j];
    assert FindEnd(wire, 3).Some?;
    var end := FindEnd(wire, 3).value;
    if end > 3 && [wire[3]] + wire[4..end] == body {
      assert wire[3..end] == body;
      assert d[..|body|] == wire[3..3 + |d|][..|body|] == body;
      assert end + 1 < 3 + |d| ==> wire[end + 1] == d[end - 2];
      OwnDoubling(body);
    }
  }

  /** What such a client makes of the body of an answer: up to the end marker, each doubled 255 taken for one. */
  function ReadBody(s: seq<byte>): Option<seq<byte>> {
    if s == [] then None
    else if s[0] != IAC then Prepend(s[0], ReadBody(s[1..]))
    else if |s| == 1 then None
    else if s[1] == SE then Some([])
    else if s[1] == IAC then Prepend(IAC, ReadBody(s[2..]))
    else None
  }

  function Prepend(b: byte, s: Option<seq<byte>>): Option<seq<byte>> {
    if s.None? then None else Some([b] + s.value)
  }

  lemma {:induction false} ReadRun(s: seq<byte>, n: nat)
    requires ReadBody(s).Some? && n <= |ReadBody(s).value| && forall j :: 0 <= j < n ==> ReadBody(s).value[j] == IAC
    ensures 2 * n <= |s| && forall j :: 0 <= j < 2 * n ==> s[j] == IAC
  {
    if n > 0 {
      var r := ReadBody(s).value;
      assert r[0] == IAC;
      assert s[0] == IAC && |s| > 1 && s[1] == IAC;
      assert r[1..] == ReadBody(s[2..]).value;
      ReadRun(s[2..], n - 1);
    }
  }

  /** The body of an answer, which the proxy does not double, is read back, whatever follows, if and only if no 255 is
      in it. */
  lemma {:induction false} AnswerReadable(body: seq<byte>, rest: seq<byte>)
    ensures ReadBody(body + ([IAC, SE] + rest)) == Some(body) <==> IAC !in body
  {
    var tail := [IAC, SE] + rest;
    var s := body + tail;
    if body == [] {
      assert s == tail;
    } else if body[0] == IAC {
      NotReadable(body, rest);
    } else {
      AnswerReadable(body[1..], rest);
      assert s[1..] == body[1..] + tail;
      assert body == [body[0]] + body[1..];
      var r := ReadBody(s[1..]);
      assert r.Some? ==> ([body[0]] + r.value)[1..] == r.value;
    }
  }

  lemma {:induction false} IacSoFar(body: seq<byte>, s: seq<byte>, n: nat)
    requires n <= |body| && body <= s && body != [] && body[0] == IAC && ReadBody(s) == Some(body)
    ensures forall j :: 0 <= j < n ==> body[j] == IAC
  {
    hide ReadBody;
    if n > 1 {
      IacSoFar(body, s, n - 1);
      ReadRun(s, n - 1);
      assert s[n - 1] == body[n - 1];
    }
  }

  lemma NotReadable(body: seq<byte>, rest: seq<byte>)
    requires body != [] && body[0] == IAC
    ensures ReadBody(body + ([IAC, SE] + rest)) != Some(body)
  {
    var s := body + ([IAC, SE] + rest);
    assert s[|body|] == IAC && s[|body| + 1] == SE;
    if |body| == 1 {
      assert s[2..][0] == SE;
      assert ReadBody(s) == Prepend(IAC, ReadBody(s[2..]));
      assert ReadBody(s[2..]) == Prepend(SE, ReadBody(s[2..][1..]));
    } else if ReadBody(s) == Some(body) {
      IacSoFar(body, s, |body|);
      ReadRun(s, |body|);
    }
  }
}
