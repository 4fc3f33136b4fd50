/** Reading what was written, in one go or in batches, whole or cut short. */
module PacketStreamTheorems {
  import opened Options
  import opened Sequences
  import opened Text
  import opened Decimals
  import opened PacketStreams

  // ---------------------------------------------------------------- batches

  ghost predicate EndIsSticky(turn: TurnFunction) {
    forall s {:trigger turn(s)} :: turn(s).0.NoMoreLines? ==> turn(turn(s).1) == (NoMoreLines, turn(s).1)
  }

  lemma EndOfFileIsSticky()
    ensures EndIsSticky(TurnFrom)
  {
  }

  /** Of any stream whatsoever, reading `a` and then `b` frames is reading `a + b` frames, as
      long as the first batch met no error. */
  lemma {:induction false} BatchesAddUp(turn: TurnFunction, s: Stream, a: nat, b: nat)
    requires Consumes(turn) && EndIsSticky(turn) && Loop(turn, s, a).0.error.None?
    ensures var (first, middle) := Loop(turn, s, a);
            var (second, end) := Loop(turn, middle, b);
            Loop(turn, s, a + b) == (second.(packets := first.packets + second.packets), end)
    decreases |s.rest|
  {
    var (t, s1) := turn(s);
    if a == 0 {
      assert [] + Loop(turn, s, b).0.packets == Loop(turn, s, b).0.packets;
    } else if t.NoMoreLines? {
      assert turn(s1) == (NoMoreLines, s1);
      assert Loop(turn, s1, b) == (ReadResult([], None, s1.eof), s1);
      var none: seq<Packet> := [];
      assert none + none == none;
    } else if t.BlankLine? {
      BatchesAddUp(turn, s1, a, b);
    } else if t.Got? {
      BatchesAddUp(turn, s1, a - 1, b);
      var (first, middle) := Loop(turn, s1, a - 1);
      Associative([t.packet], first.packets, Loop(turn, middle, b).0.packets);
    }
  }

  lemma BatchedReading(s: Stream, a: nat, b: nat)
    requires ReadFrames(s, a).0.error.None?
    ensures var (first, middle) := ReadFrames(s, a);
            var (second, end) := ReadFrames(middle, b);
            ReadFrames(s, a + b) == (second.(packets := first.packets + second.packets), end)
  {
    TurnsConsume();
    EndOfFileIsSticky();
    BatchesAddUp(TurnFrom, s, a, b);
  }

  // ---------------------------------------------------------------- headers

  predicate PlainToken(t: string) {
    t != "" && forall i :: 0 <= i < |t| ==> !IsSpace(t[i])
  }

  lemma {:induction false} TokenThenBlank(t: string, rest: string)
    requires forall i :: 0 <= i < |t| ==> !IsSpace(t[i])
    requires rest != "" ==> IsSpace(rest[0])
    ensures TokenLength(t + rest) == |t|
  {
    if t != "" {
      assert (t + rest)[1..] == t[1..] + rest;
      TokenThenBlank(t[1..], rest);
    } else {
      assert t + rest == rest;
    }
  }

  lemma {:induction false} TokensOfJoined(ts: seq<string>)
    requires forall i :: 0 <= i < |ts| ==> PlainToken(ts[i])
    ensures Tokens(Join(ts, ' ')) == ts
  {
    if |ts| == 1 {
      TokenThenBlank(ts[0], "");
      assert ts[0] + "" == ts[0];
    } else if |ts| > 1 {
      var rest := [' '] + Join(ts[1..], ' ');
      TokenThenBlank(ts[0], rest);
      assert Join(ts, ' ') == ts[0] + rest;
      TokensOfJoined(ts[1..]);
      assert rest[1..] == Join(ts[1..], ' ');
      assert Tokens(rest) == ts[1..];
    }
  }

  lemma DigitsArePlain(n: int)
    ensures PlainToken(PrintInt(n)) && (n >= 0 ==> PlainToken(PrintNat(n)))
  {
  }

  lemma HeaderIsTokens(p: Packet)
    ensures forall i :: 0 <= i < 7 ==> PlainToken(HeaderTokens(p)[i])
    ensures Tokens(Header(p)) == HeaderTokens(p)
  {
    DigitsArePlain(p.seconds);
    DigitsArePlain(p.microseconds);
    DigitsArePlain(p.capturedLength);
    DigitsArePlain(p.originalLength);
    DigitsArePlain(|p.bytes|);
    assert PlainToken(FRAME_PREFIX) && PlainToken(LINK_NAME);
    TokensOfJoined(HeaderTokens(p));
  }

  /** The fields of a packet fit the types that the program stores them in. */
  predicate FitsItsTypes(p: Packet) {
    && INT64_MIN <= p.seconds <= INT64_MAX && INT64_MIN <= p.microseconds <= INT64_MAX
    && p.capturedLength <= UINT32_MAX && p.originalLength <= UINT32_MAX && |p.bytes| <= UINT64_MAX
  }

  lemma HeaderRoundTrip(p: Packet)
    requires FitsItsTypes(p)
    ensures ParseHeader(Header(p)) ==
            if |p.bytes| <= UINT32_MAX
            then Fields(p.seconds, p.microseconds, p.capturedLength, p.originalLength, |p.bytes|)
            else Bad(BadHeader)
  {
    HeaderIsTokens(p);
    SignedRoundTrip(p.seconds);
    SignedRoundTrip(p.microseconds);
    UnsignedRoundTrip(p.capturedLength);
    UnsignedRoundTrip(p.originalLength);
    UnsignedRoundTrip(|p.bytes|);
  }

  lemma HeaderIsOneLine(p: Packet)
    ensures '\n' !in Header(p) && Header(p) != ""
  {
    HeaderIsTokens(p);
    JoinedChars(HeaderTokens(p), ' ', '\n');
    JoinCons(HeaderTokens(p)[0], HeaderTokens(p)[1..], ' ');
    assert HeaderTokens(p) == [HeaderTokens(p)[0]] + HeaderTokens(p)[1..];
  }

  // ---------------------------------------------------------------- whole frames

  lemma LineThenRest(line: string, rest: string)
    requires '\n' !in line
    ensures GetLine(Opened(line + "\n" + rest)) == (Line(line), Opened(rest))
  {
    var text := line + "\n" + rest;
    assert text[..|line|] == line && text[|line|] == '\n' && text[|line| + 1..] == rest;
    IndexOfFirst(text, '\n', |line|);
  }

  predicate Writable(p: Packet) {
    FitsItsTypes(p) && |p.bytes| <= UINT32_MAX
  }

  lemma BodyRoundTrip(p: Packet, rest: string)
    ensures Body(Opened(p.bytes + "\n" + rest),
                 Fields(p.seconds, p.microseconds, p.capturedLength, p.originalLength, |p.bytes|))
            == (Got(p), Opened(rest))
  {
    var text := p.bytes + "\n" + rest;
    assert text[..|p.bytes|] == p.bytes && text[|p.bytes|..] == "\n" + rest;
    assert ("\n" + rest)[1..] == rest;
    if p.bytes == "" {
      assert text == "\n" + rest;
    }
  }

  lemma FrameThenRest(p: Packet, rest: string)
    ensures Frame(p) + rest == Header(p) + "\n" + (p.bytes + "\n" + rest)
  {
  }

  lemma FrameRoundTrip(p: Packet, rest: string)
    requires Writable(p)
    ensures TurnFrom(Opened(Frame(p) + rest)) == (Got(p), Opened(rest))
  {
    FrameThenRest(p, rest);
    HeaderIsOneLine(p);
    LineThenRest(Header(p), p.bytes + "\n" + rest);
    HeaderRoundTrip(p);
    BodyRoundTrip(p, rest);
  }

  lemma OversizedIsRejected(p: Packet)
    requires FitsItsTypes(p) && |p.bytes| > UINT32_MAX
    ensures TurnFrom(Opened(Frame(p))).0 == Failed(BadHeader)
  {
    FrameThenRest(p, "");
    assert Frame(p) + "" == Frame(p);
    HeaderIsOneLine(p);
    LineThenRest(Header(p), p.bytes + "\n" + "");
    HeaderRoundTrip(p);
  }

  lemma OneTurn(turn: TurnFunction, s: Stream)
    requires Consumes(turn)
    ensures turn(s).0.Got? ==> Loop(turn, s, 1).0 == ReadResult([turn(s).0.packet], None, turn(s).1.eof)
    ensures turn(s).0.Failed? ==> Loop(turn, s, 1).0 == ReadResult([], Some(turn(s).0.error), false)
  {
    if turn(s).0.Got? {
      assert Loop(turn, turn(s).1, 0).0 == ReadResult([], None, turn(s).1.eof);
    }
  }

  /** A frame reads back as the packet exactly when its payload is not longer than a 32-bit
      count can say; else the reader rejects the header that the writer wrote. */
  lemma ReadableExactlyWhen(p: Packet)
    requires FitsItsTypes(p)
    ensures ReadFrames(Opened(Frame(p)), 1).0.packets == [p] <==> |p.bytes| <= UINT32_MAX
    ensures |p.bytes| > UINT32_MAX ==> ReadFrames(Opened(Frame(p)), 1).0.error == Some(BadHeader)
  {
    TurnsConsume();
    OneTurn(TurnFrom, Opened(Frame(p)));
    if |p.bytes| <= UINT32_MAX {
      assert Frame(p) + "" == Frame(p);
      FrameRoundTrip(p, "");
    } else {
      OversizedIsRejected(p);
    }
  }

  ghost predicate ReadsBack(turn: TurnFunction, write: Writer, p: Packet) {
    forall rest :: turn(Opened(write(p) + rest)) == (Got(p), Opened(rest))
  }

  lemma OneFrameThenLoop(p: Packet, rest: string, turn: TurnFunction, write: Writer, max: nat)
    requires Consumes(turn) && max > 0 && ReadsBack(turn, write, p)
    ensures var (more, end) := Loop(turn, Opened(rest), max - 1);
            Loop(turn, Opened(write(p) + rest), max) == (more.(packets := [p] + more.packets), end)
  {
    assert turn(Opened(write(p) + rest)) == (Got(p), Opened(rest));
  }

  lemma {:induction false} FramesThenLoop(ps: seq<Packet>, rest: string, turn: TurnFunction, write: Writer, max: nat)
    requires Consumes(turn) && |ps| <= max && forall p :: p in ps ==> ReadsBack(turn, write, p)
    ensures var (more, end) := Loop(turn, Opened(rest), max - |ps|);
            Loop(turn, Opened(WriteAll(write, ps) + rest), max) == (more.(packets := ps + more.packets), end)
    decreases |ps|
  {
    var (more, end) := Loop(turn, Opened(rest), max - |ps|);
    if ps == [] {
      assert WriteAll(write, ps) + rest == rest;
      assert [] + more.packets == more.packets;
    } else {
      var first, others := ps[0], ps[1..];
      FramesThenLoop(others, rest, turn, write, max - 1);
      OneFrameThenLoop(first, WriteAll(write, others) + rest, turn, write, max);
      Associative(write(first), WriteAll(write, others), rest);
      Associative([first], others, more.packets);
      assert [first] + others == ps;
    }
  }

  lemma {:induction false} WriteAllConcat(write: Writer, a: seq<Packet>, b: seq<Packet>)
    ensures WriteAll(write, a + b) == WriteAll(write, a) + WriteAll(write, b)
  {
    if a == [] {
      assert a + b == b;
    } else {
      assert (a + b)[1..] == a[1..] + b;
      WriteAllConcat(write, a[1..], b);
      Associative(write(a[0]), WriteAll(write, a[1..]), WriteAll(write, b));
    }
  }

  lemma SplitFrames(write: Writer, ps: seq<Packet>, n: nat)
    requires n <= |ps|
    ensures WriteAll(write, ps) == WriteAll(write, ps[..n]) + WriteAll(write, ps[n..])
  {
    var front, back := ps[..n], ps[n..];
    assert front + back == ps;
    WriteAllConcat(write, front, back);
  }

  lemma NextFrame(write: Writer, ps: seq<Packet>, n: nat)
    requires n < |ps|
    ensures WriteAll(write, ps[n..]) == write(ps[n]) + WriteAll(write, ps[n + 1..])
    ensures WriteAll(write, ps[..n + 1]) == WriteAll(write, ps[..n]) + write(ps[n])
  {
    var one := [ps[n]];
    assert ps[n..][1..] == ps[n + 1..] && one[1..] == [];
    assert WriteAll(write, one) == write(ps[n]) + "" == write(ps[n]);
    WriteAllConcat(write, ps[..n], one);
    assert ps[..n] + one == ps[..n + 1];
  }

  /** Written frames followed by anything: the reader returns the frames, then whatever it
      makes of the rest. */
  lemma WrittenFramesAreRead(ps: seq<Packet>, rest: string, max: nat)
    requires |ps| <= max && forall p :: p in ps ==> Writable(p)
    ensures var (more, end) := ReadFrames(Opened(rest), max - |ps|);
            ReadFrames(Opened(Frames(ps) + rest), max) == (more.(packets := ps + more.packets), end)
  {
    TurnsConsume();
    forall p | p in ps ensures ReadsBack(TurnFrom, Frame, p) {
      forall r ensures TurnFrom(Opened(Frame(p) + r)) == (Got(p), Opened(r)) {
        FrameRoundTrip(p, r);
      }
    }
    FramesThenLoop(ps, rest, TurnFrom, Frame, max);
  }

  lemma LoopNothing(s: Stream)
    ensures ReadFrames(s, 0) == (ReadResult([], None, s.eof), s)
  {
  }

  /** Reading with a limit returns the first frames unchanged and leaves the stream at the
      start of the next frame. */
  lemma StreamRoundTrip(ps: seq<Packet>, rest: string, limit: nat)
    requires limit <= |ps| && forall p :: p in ps ==> Writable(p)
    ensures ReadFrames(Opened(Frames(ps) + rest), limit)
            == (ReadResult(ps[..limit], None, false), Opened(Frames(ps[limit..]) + rest))
  {
    SplitFrames(Frame, ps, limit);
    Associative(Frames(ps[..limit]), Frames(ps[limit..]), rest);
    WrittenFramesAreRead(ps[..limit], Frames(ps[limit..]) + rest, limit);
    LoopNothing(Opened(Frames(ps[limit..]) + rest));
    assert ps[..limit] + [] == ps[..limit];
  }

  // ---------------------------------------------------------------- frames cut short

  /** A header line without its newline, however much of it, is always an error: nothing is
      left for the payload or for the trailing newline. */
  lemma CutHeaderFails(line: string)
    requires line != "" && '\n' !in line
    ensures TurnFrom(Opened(line)).0.Failed?
  {
    assert IndexOf(line, '\n') == |line|;
  }

  lemma CutBodyFails(p: Packet, part: string)
    requires Writable(p) && part < p.bytes + "\n"
    ensures var f := Fields(p.seconds, p.microseconds, p.capturedLength, p.originalLength, |p.bytes|);
            Body(Opened(part), f).0.Failed?
  {
    assert |part| <= |p.bytes|;
    if |part| == |p.bytes| {
      assert part[|p.bytes|..] == "";
    }
  }

  lemma CutFrameFails(p: Packet, part: string)
    requires Writable(p) && part != "" && part < Frame(p)
    ensures TurnFrom(Opened(part)).0.Failed?
  {
    HeaderIsOneLine(p);
    var rest := CutFrame(Header(p), p.bytes + "\n", part);
    if |part| <= |Header(p)| {
      CutHeaderFails(part);
    } else {
      LineThenRest(Header(p), rest);
      HeaderRoundTrip(p);
      CutBodyFails(p, rest);
    }
  }

  /** A frame is cut inside its header line or inside what follows it. */
  lemma CutFrame(header: string, body: string, part: string) returns (rest: string)
    requires part < header + "\n" + body
    ensures if |part| <= |header| then part <= header else part == header + "\n" + rest && rest < body
  {
    var frame, n := header + "\n" + body, |header|;
    rest := if |part| <= n then "" else part[n + 1..];
    assert part == frame[..|part|];
    if |part| > n {
      assert rest == frame[n + 1..|part|] == body[..|rest|];
      assert part[..n + 1] == header + "\n";
    } else {
      assert part == header[..|part|];
    }
  }

  /** How many whole frames lie before a cut. */
  lemma {:induction false} WholeFramesBefore(write: Writer, ps: seq<Packet>, cut: nat, from: nat) returns (n: nat)
    requires from <= |ps| && |WriteAll(write, ps[..from])| <= cut <= |WriteAll(write, ps)|
    ensures from <= n <= |ps| && |WriteAll(write, ps[..n])| <= cut
    ensures n < |ps| ==> cut < |WriteAll(write, ps[..n + 1])|
    decreases |ps| - from
  {
    n := from;
    if from < |ps| && |WriteAll(write, ps[..from + 1])| <= cut {
      n := WholeFramesBefore(write, ps, cut, from + 1);
    }
  }

  lemma CutText(a: string, f: string, more: string, cut: nat)
    requires |a| <= cut < |a| + |f|
    ensures (a + (f + more))[..cut] == a + f[..cut - |a|]
  {
  }

  lemma CutStream(write: Writer, ps: seq<Packet>, cut: nat, n: nat) returns (part: string)
    requires n <= |ps| && |WriteAll(write, ps[..n])| <= cut <= |WriteAll(write, ps)|
    requires n < |ps| ==> cut < |WriteAll(write, ps[..n + 1])|
    ensures WriteAll(write, ps)[..cut] == WriteAll(write, ps[..n]) + part
    ensures |part| == cut - |WriteAll(write, ps[..n])|
    ensures if n < |ps| then part < write(ps[n]) else part == ""
  {
    SplitFrames(write, ps, n);
    if n < |ps| {
      NextFrame(write, ps, n);
      CutText(WriteAll(write, ps[..n]), write(ps[n]), WriteAll(write, ps[n + 1..]), cut);
      part := write(ps[n])[..cut - |WriteAll(write, ps[..n])|];
    } else {
      assert ps[..n] == ps;
      part := "";
      assert WriteAll(write, ps)[..cut] + "" == WriteAll(write, ps);
    }
  }

  /** A valid stream cut at any byte: the reader returns exactly the packets that are
      complete, and reports an error exactly when the cut is not between two frames, even if
      the cut leaves a size field that is a valid smaller number. */
  lemma PrefixSafety(ps: seq<Packet>, cut: nat, limit: nat) returns (n: nat)
    requires (forall p :: p in ps ==> Writable(p)) && cut <= |Frames(ps)| && |ps| < limit
    ensures n <= |ps| && |Frames(ps[..n])| <= cut
    ensures n < |ps| ==> cut < |Frames(ps[..n + 1])|
    ensures var result := ReadFrames(Opened(Frames(ps)[..cut]), limit).0;
            && result.packets == ps[..n]
            && (result.error.None? <==> cut == |Frames(ps[..n])|)
            && (result.error.None? <==> result.endOfStream)
  {
    assert ps[..0] == [];
    n := WholeFramesBefore(Frame, ps, cut, 0);
    var part := CutStream(Frame, ps, cut, n);
    WrittenFramesAreRead(ps[..n], part, limit);
    assert ps[..n] + [] == ps[..n];
    if part == "" {
      EmptyStream(limit - n);
    } else {
      CutFrameFails(ps[n], part);
      FailedTurn(Opened(part), limit - n);
    }
  }

  lemma EmptyStream(max: nat)
    requires max > 0
    ensures ReadFrames(Opened(""), max).0 == ReadResult([], None, true)
  {
  }

  lemma FailedTurn(s: Stream, max: nat)
    requires max > 0 && TurnFrom(s).0.Failed?
    ensures ReadFrames(s, max).0 == ReadResult([], Some(TurnFrom(s).0.error), false)
  {
  }
}
