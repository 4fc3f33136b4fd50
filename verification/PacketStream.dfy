/** The length-framed packet stream: what the writer puts into a stream and what the reader
    makes of any stream. Payload bytes are characters here, as they are to the stream. */
module PacketStreams {
  import opened Options
  import opened Sequences
  import opened Text
  import opened Decimals

  /** The only link type is Ethernet. */
  datatype Packet = Packet(seconds: int, microseconds: int, capturedLength: nat, originalLength: nat, bytes: string)

  const FRAME_PREFIX := "PNAD_PACKET_V1"
  const LINK_NAME := "ethernet"

  // ---------------------------------------------------------------- writing

  function HeaderTokens(p: Packet): seq<string> {
    [FRAME_PREFIX, PrintInt(p.seconds), PrintInt(p.microseconds), LINK_NAME,
     PrintNat(p.capturedLength), PrintNat(p.originalLength), PrintNat(|p.bytes|)]
  }

  function Header(p: Packet): string {
    Join(HeaderTokens(p), ' ')
  }

  function Frame(p: Packet): string {
    Header(p) + "\n" + (p.bytes + "\n")
  }

  type Writer = Packet -> string

  function WriteAll(write: Writer, ps: seq<Packet>): string {
    if ps == [] then "" else write(ps[0]) + WriteAll(write, ps[1..])
  }

  function Frames(ps: seq<Packet>): string {
    WriteAll(Frame, ps)
  }

  // ---------------------------------------------------------------- the input stream

  /** `std::istream`: what is left, and the two state bits. */
  datatype Stream = Stream(rest: string, eof: bool, failed: bool)
  {
    predicate Good() {
      !eof && !failed
    }
  }

  function Opened(text: string): Stream {
    Stream(text, false, false)
  }

  datatype Line = NoLine | Line(text: string)

  function GetLine(s: Stream): (Line, Stream) {
    if !s.Good() then (NoLine, s.(failed := true))
    else if s.rest == "" then (NoLine, Stream("", true, true))
    else
      var i := IndexOf(s.rest, '\n');
      if i == |s.rest| then (Line(s.rest), Stream("", true, false))
      else (Line(s.rest[..i]), s.(rest := s.rest[i + 1..]))
  }

  /** `read` and `gcount`: what was obtained, at most `count` characters. */
  function Read(s: Stream, count: nat): (string, Stream) {
    if !s.Good() then ("", s.(failed := true))
    else if |s.rest| < count then (s.rest, Stream("", true, true))
    else (s.rest[..count], s.(rest := s.rest[count..]))
  }

  function GetChar(s: Stream): (Option<char>, Stream) {
    if !s.Good() then (None, s.(failed := true))
    else if s.rest == "" then (None, Stream("", true, true))
    else (Some(s.rest[0]), s.(rest := s.rest[1..]))
  }

  // ---------------------------------------------------------------- header fields

  predicate IsSpace(c: char) {
    c == ' ' || c == '\t' || c == '\n' || c == '\r' || c == 11 as char || c == 12 as char
  }

  /** The length of the run of characters before the first blank. */
  function TokenLength(s: string): (n: nat)
    ensures n <= |s| && (forall i :: 0 <= i < n ==> !IsSpace(s[i])) && (n < |s| ==> IsSpace(s[n]))
  {
    if s == "" || IsSpace(s[0]) then 0 else 1 + TokenLength(s[1..])
  }

  /** What repeated `>>` into strings yields. */
  function Tokens(s: string): seq<string> {
    if s == "" then []
    else if IsSpace(s[0]) then Tokens(s[1..])
    else [s[..TokenLength(s)]] + Tokens(s[TokenLength(s)..])
  }

  function TokenAt(tokens: seq<string>, i: nat): string {
    if i < |tokens| then tokens[i] else ""
  }

  datatype StreamError = BadPrefix | BadHeader | EndedMidFrame | NoTrailingNewline

  datatype Parsed =
    | Bad(error: StreamError)
    | Fields(seconds: int, microseconds: int, captured: nat, original: nat, count: nat)

  function ParseFields(t: seq<string>): Parsed {
    if TokenAt(t, 0) != FRAME_PREFIX then Bad(BadPrefix)
    else
      var seconds, micros := ParseSigned(TokenAt(t, 1)), ParseSigned(TokenAt(t, 2));
      var captured, original := ParseUnsigned(TokenAt(t, 4)), ParseUnsigned(TokenAt(t, 5));
      var count := ParseUnsigned(TokenAt(t, 6));
      if seconds.None? || micros.None? || TokenAt(t, 3) != LINK_NAME
         || captured.None? || original.None? || count.None?
         || captured.value > UINT32_MAX || original.value > UINT32_MAX || count.value > UINT32_MAX
      then Bad(BadHeader)
      else Fields(seconds.value, micros.value, captured.value, original.value, count.value)
  }

  function ParseHeader(line: string): Parsed {
    ParseFields(Tokens(line))
  }

  // ---------------------------------------------------------------- reading

  datatype ReadResult = ReadResult(packets: seq<Packet>, error: Option<StreamError>, endOfStream: bool)

  /** What one turn of the reader's loop comes to. */
  datatype Turn = NoMoreLines | BlankLine | Failed(error: StreamError) | Got(packet: Packet)

  /** What follows a header line that parsed: the payload and a newline. */
  function Body(s: Stream, f: Parsed): (Turn, Stream)
    requires f.Fields?
  {
    var (bytes, s1) := if f.count > 0 then Read(s, f.count) else ("", s);
    if |bytes| != f.count then (Failed(EndedMidFrame), s1)
    else
      var (newline, s2) := GetChar(s1);
      if newline != Some('\n') then (Failed(NoTrailingNewline), s2)
      else (Got(Packet(f.seconds, f.microseconds, f.captured, f.original, bytes)), s2)
  }

  function TurnFrom(s: Stream): (Turn, Stream) {
    var (line, s1) := GetLine(s);
    if line.NoLine? then (NoMoreLines, s1)
    else if line.text == "" then (BlankLine, s1)
    else
      var f := ParseHeader(line.text);
      if f.Bad? then (Failed(f.error), s1) else Body(s1, f)
  }

  type TurnFunction = Stream -> (Turn, Stream)

  ghost predicate Consumes(turn: TurnFunction) {
    forall s {:trigger turn(s)} :: !turn(s).0.NoMoreLines? ==> |turn(s).1.rest| < |s.rest|
  }

  lemma BodyOnlyConsumes(s: Stream, f: Parsed)
    requires f.Fields?
    ensures |Body(s, f).1.rest| <= |s.rest|
  {
  }

  lemma TurnsConsume()
    ensures Consumes(TurnFrom)
  {
    forall s ensures !TurnFrom(s).0.NoMoreLines? ==> |TurnFrom(s).1.rest| < |s.rest| {
      var (line, s1) := GetLine(s);
      if line.Line? && line.text != "" && ParseHeader(line.text).Fields? {
        BodyOnlyConsumes(s1, ParseHeader(line.text));
      }
    }
  }

  /** The loop, for any way of taking turns. */
  function Loop(turn: TurnFunction, s: Stream, max: nat): (ReadResult, Stream)
    requires Consumes(turn)
    decreases |s.rest|
  {
    if max == 0 then (ReadResult([], None, s.eof), s)
    else
      var (t, s1) := turn(s);
      match t
      case NoMoreLines => (ReadResult([], None, s1.eof), s1)
      case BlankLine => Loop(turn, s1, max)
      case Failed(error) => (ReadResult([], Some(error), false), s1)
      case Got(packet) =>
        var (more, end) := Loop(turn, s1, max - 1);
        (more.(packets := [packet] + more.packets), end)
  }

  function ReadFrames(s: Stream, max: nat): (ReadResult, Stream) {
    TurnsConsume();
    Loop(TurnFrom, s, max)
  }

  /** `turn` is what the reader does, under a name. */
  ghost predicate IsTurn(turn: TurnFunction) {
    forall s {:trigger TurnFrom(s)} :: turn(s) == TurnFrom(s)
  }

  class InputStream {
    var state: Stream

    constructor (text: string)
      ensures state == Opened(text)
    {
      state := Opened(text);
    }

    method NextBody(f: Parsed) returns (outcome: Turn)
      requires f.Fields?
      modifies this
      ensures (outcome, state) == Body(old(state), f)
    {
      var bytes := "";
      if f.count > 0 {
        var (b, s) := Read(state, f.count);
        bytes, state := b, s;
        if |bytes| != f.count {
          return Failed(EndedMidFrame);
        }
      }
      var (newline, s) := GetChar(state);
      state := s;
      if newline != Some('\n') {
        return Failed(NoTrailingNewline);
      }
      outcome := Got(Packet(f.seconds, f.microseconds, f.captured, f.original, bytes));
    }

    /** One turn of the reader's loop. */
    method NextTurn(ghost turn: TurnFunction) returns (t: Turn)
      requires IsTurn(turn)
      modifies this
      ensures (t, state) == turn(old(state))
    {
      assert turn(state) == TurnFrom(state);
      var (line, s) := GetLine(state);
      state := s;
      if line.NoLine? {
        return NoMoreLines;
      }
      if line.text == "" {
        return BlankLine;
      }
      var f := ParseHeader(line.text);
      if f.Bad? {
        return Failed(f.error);
      }
      t := NextBody(f);
    }

    /** The reader: consumes the stream and collects packets. `turn` names what a turn does. */
    method CollectFrames(maxFrames: nat, ghost turn: TurnFunction) returns (result: ReadResult)
      requires Consumes(turn) && IsTurn(turn)
      modifies this
      ensures (result, state) == Loop(turn, old(state), maxFrames)
    {
      var packets: seq<Packet> := [];
      ghost var whole := Loop(turn, state, maxFrames);
      assert [] + whole.0.packets == whole.0.packets;
      while |packets| < maxFrames
        invariant |packets| <= maxFrames
        invariant var (rest, end) := Loop(turn, state, maxFrames - |packets|);
                  whole == (rest.(packets := packets + rest.packets), end)
        decreases |state.rest|
      {
        assert packets + [] == packets;
        var t := NextTurn(turn);
        match t
        case NoMoreLines => break;
        case BlankLine =>
        case Failed(error) => return ReadResult(packets, Some(error), false);
        case Got(packet) =>
          Associative(packets, [packet], Loop(turn, state, maxFrames - |packets| - 1).0.packets);
          packets := packets + [packet];
      }
      assert packets + [] == packets;
      result := ReadResult(packets, None, state.eof);
    }

    method ReadPacketStreamFrames(maxFrames: nat) returns (result: ReadResult)
      modifies this
      ensures (result, state) == ReadFrames(old(state), maxFrames)
    {
      TurnsConsume();
      result := CollectFrames(maxFrames, TurnFrom);
    }
  }
}
