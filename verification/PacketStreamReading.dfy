/** What the reader makes of any stream at all: when it finds a packet, and which error it
    reports when it does not. */
module PacketStreamReading {
  import opened Options
  import opened Sequences
  import opened Text
  import opened Decimals
  import opened PacketStreams
  import opened PacketStreamTheorems

  // ---------------------------------------------------------------- tokens

  /** A space, or one of the control characters 9 to 13. */
  predicate Blank(c: char) {
    c == ' ' || 9 <= c as int <= 13
  }

  predicate AllBlank(s: string) {
    forall c :: c in s ==> Blank(c)
  }

  predicate NoneBlank(s: string) {
    forall c :: c in s ==> !Blank(c)
  }

  /** Blanks, then the whole word `t`, then `rest`. */
  ghost predicate BeginsWith(s: string, t: string, gap: string, rest: string) {
    && s == gap + (t + rest) && AllBlank(gap)
    && t != "" && NoneBlank(t) && (rest != "" ==> Blank(rest[0]))
  }

  /** The text holds these words, set apart by blanks, and nothing else. */
  ghost predicate SpacedOut(s: string, ts: seq<string>)
    decreases |ts|
  {
    if ts == [] then AllBlank(s)
    else exists gap, rest :: BeginsWith(s, ts[0], gap, rest) && SpacedOut(rest, ts[1..])
  }

  lemma BlankIsSpace(c: char)
    ensures IsSpace(c) <==> Blank(c)
  {
  }

  lemma {:induction false} TokensAreSpaced(s: string)
    ensures SpacedOut(s, Tokens(s))
    decreases |s|
  {
    if s != "" && IsSpace(s[0]) {
      TokensAreSpaced(s[1..]);
      BlankInFront(s, Tokens(s));
    } else if s != "" {
      var n := TokenLength(s);
      TokensAreSpaced(s[n..]);
      FirstTokenIsPlain(s);
      if n < |s| {
        BlankIsSpace(s[n]);
      }
      assert s == "" + (s[..n] + s[n..]);
      assert Tokens(s)[0] == s[..n] && Tokens(s)[1..] == Tokens(s[n..]);
      assert BeginsWith(s, Tokens(s)[0], "", s[n..]) && SpacedOut(s[n..], Tokens(s)[1..]);
    } else {
      assert Tokens(s) == [];
    }
  }

  lemma BlankInFront(s: string, ts: seq<string>)
    requires s != "" && IsSpace(s[0]) && SpacedOut(s[1..], ts)
    ensures SpacedOut(s, ts)
  {
    BlankIsSpace(s[0]);
    assert s == [s[0]] + s[1..];
    if ts != [] {
      var gap, rest :| BeginsWith(s[1..], ts[0], gap, rest) && SpacedOut(rest, ts[1..]);
      Associative([s[0]], gap, ts[0] + rest);
      assert BeginsWith(s, ts[0], [s[0]] + gap, rest);
    }
  }

  lemma FirstTokenIsPlain(s: string)
    requires s != "" && !IsSpace(s[0])
    ensures s[..TokenLength(s)] != "" && NoneBlank(s[..TokenLength(s)])
  {
    forall c | c in s[..TokenLength(s)] ensures !Blank(c) {
      BlankIsSpace(c);
    }
  }

  lemma {:induction false} GapThenTokens(gap: string, s: string)
    requires AllBlank(gap)
    ensures Tokens(gap + s) == Tokens(s)
  {
    if gap == "" {
      assert gap + s == s;
    } else {
      BlankIsSpace(gap[0]);
      assert (gap + s)[1..] == gap[1..] + s;
      GapThenTokens(gap[1..], s);
    }
  }

  lemma TokenThenTokens(t: string, s: string)
    requires t != "" && NoneBlank(t) && (s != "" ==> Blank(s[0]))
    ensures Tokens(t + s) == [t] + Tokens(s)
  {
    forall i | 0 <= i < |t| ensures !IsSpace(t[i]) {
      BlankIsSpace(t[i]);
    }
    if s != "" {
      BlankIsSpace(s[0]);
    }
    TokenThenBlank(t, s);
    assert (t + s)[..|t|] == t && (t + s)[|t|..] == s;
  }

  lemma {:induction false} SpacedIsRead(s: string, ts: seq<string>)
    requires SpacedOut(s, ts)
    ensures Tokens(s) == ts
    decreases |ts|
  {
    if ts == [] {
      assert s + "" == s;
      GapThenTokens(s, "");
    } else {
      var gap, rest :| BeginsWith(s, ts[0], gap, rest) && SpacedOut(rest, ts[1..]);
      SpacedIsRead(rest, ts[1..]);
      TokenThenTokens(ts[0], rest);
      GapThenTokens(gap, ts[0] + rest);
    }
  }

  /** The tokens of a text are exactly the words that blanks set apart in it. */
  lemma TokensAreExact(s: string, ts: seq<string>)
    ensures Tokens(s) == ts <==> SpacedOut(s, ts)
  {
    TokensAreSpaced(s);
    if SpacedOut(s, ts) {
      SpacedIsRead(s, ts);
    }
  }

  // ---------------------------------------------------------------- header lines

  /** The header line says these numbers; anything behind the seventh word is ignored. */
  ghost predicate HeaderSays(t: seq<string>, f: Parsed)
    requires f.Fields?
  {
    && |t| >= 7 && t[0] == "PNAD_PACKET_V1" && t[3] == "ethernet"
    && SaysTime(t[1], f.seconds) && SaysTime(t[2], f.microseconds)
    && SaysLength(t[4], f.captured) && SaysLength(t[5], f.original) && SaysLength(t[6], f.count)
  }

  ghost predicate SaysTime(s: string, n: int) {
    -0x8000_0000_0000_0000 <= n < 0x8000_0000_0000_0000 && SpellsInt(s, n)
  }

  ghost predicate SaysLength(s: string, n: nat) {
    n < 0x1_0000_0000 && Spells(s, n)
  }

  lemma NothingIsNoNumber()
    ensures ParseSigned("") == None && ParseUnsigned("") == None
  {
  }

  lemma FieldsAreSaid(t: seq<string>, f: Parsed)
    requires f.Fields?
    ensures ParseFields(t) == f <==> HeaderSays(t, f)
  {
    SignedIsExact(TokenAt(t, 1), f.seconds);
    SignedIsExact(TokenAt(t, 2), f.microseconds);
    UnsignedIsExact(TokenAt(t, 4), f.captured);
    UnsignedIsExact(TokenAt(t, 5), f.original);
    UnsignedIsExact(TokenAt(t, 6), f.count);
    NothingIsNoNumber();
  }

  lemma PrefixIsChecked(t: seq<string>)
    ensures ParseFields(t) == Bad(BadPrefix) <==> t == [] || t[0] != "PNAD_PACKET_V1"
  {
  }

  // ---------------------------------------------------------------- one turn

  /** The text begins with this line, which a newline or the end of the text ends. */
  predicate FirstLine(text: string, line: string, more: string) {
    '\n' !in line && (text == line + "\n" + more || (text == line && more == ""))
  }

  /** The first line of the text spells these words. */
  ghost predicate LineSays(text: string, more: string, t: seq<string>) {
    exists line :: line != "" && FirstLine(text, line, more) && SpacedOut(line, t)
  }

  /** What a turn of the reader means, for every text. */
  ghost predicate Explains(text: string, turn: Turn, rest: string) {
    match turn
    case NoMoreLines => text == ""
    case BlankLine => text == "\n" + rest
    case Got(p) =>
      exists t :: LineSays(text, p.bytes + "\n" + rest, t) && HeaderSays(t, FieldsOf(p))
    case Failed(BadPrefix) =>
      exists more, t :: LineSays(text, more, t) && (t == [] || t[0] != "PNAD_PACKET_V1")
    case Failed(BadHeader) =>
      exists more, t :: LineSays(text, more, t) && t != [] && t[0] == "PNAD_PACKET_V1"
                        && forall f: Parsed :: f.Fields? ==> !HeaderSays(t, f)
    case Failed(EndedMidFrame) =>
      exists more, t, f: Parsed :: f.Fields? && LineSays(text, more, t) && HeaderSays(t, f) && |more| < f.count
    case Failed(NoTrailingNewline) =>
      exists more, t, f: Parsed ::
        f.Fields? && LineSays(text, more, t) && HeaderSays(t, f)
        && |more| >= f.count && (|more| == f.count || more[f.count] != '\n')
  }

  function FieldsOf(p: Packet): Parsed {
    Fields(p.seconds, p.microseconds, p.capturedLength, p.originalLength, |p.bytes|)
  }

  lemma LineIsFirst(text: string)
    requires text != ""
    ensures var (line, s) := GetLine(Opened(text));
            && line.Line? && FirstLine(text, line.text, s.rest) && !s.failed
            && (s.eof ==> s.rest == "" && text == line.text)
            && (!s.eof ==> text == line.text + "\n" + s.rest)
  {
    var i := IndexOf(text, '\n');
    if i < |text| {
      assert text == text[..i] + "\n" + text[i + 1..];
    }
  }

  /** What follows a good header line. */
  lemma BodyIsExplained(s: Stream, f: Parsed)
    requires f.Fields? && !s.failed && (s.eof ==> s.rest == "")
    ensures var (turn, s') := Body(s, f);
            match turn
            case Got(p) => f == FieldsOf(p) && s.rest == p.bytes + "\n" + s'.rest
            case Failed(EndedMidFrame) => |s.rest| < f.count
            case Failed(NoTrailingNewline) =>
              |s.rest| >= f.count && (|s.rest| == f.count || s.rest[f.count] != '\n')
            case _ => false
  {
    var (turn, s') := Body(s, f);
    if turn.Got? {
      assert s.rest == s.rest[..f.count] + "\n" + s.rest[f.count + 1..];
    }
  }

  /** On any text the reader's turn is what the text says: a packet exactly where one is
      written, a blank line skipped, and each of the four errors for its own reason. */
  lemma TurnIsExplained(text: string)
    ensures Explains(text, TurnFrom(Opened(text)).0, TurnFrom(Opened(text)).1.rest)
  {
    if text != "" {
      LineIsFirst(text);
      var (line, s) := GetLine(Opened(text));
      if line.text != "" {
        TokensAreSpaced(line.text);
        LineIsExplained(text, line.text, s, Tokens(line.text));
      }
    }
  }

  lemma LineIsExplained(text: string, line: string, s: Stream, t: seq<string>)
    requires line != "" && t == Tokens(line) && GetLine(Opened(text)) == (Line(line), s)
    requires FirstLine(text, line, s.rest) && SpacedOut(line, t)
    requires !s.failed && (s.eof ==> s.rest == "")
    ensures Explains(text, TurnFrom(Opened(text)).0, TurnFrom(Opened(text)).1.rest)
  {
    assert LineSays(text, s.rest, t);
    var f := ParseFields(t);
    PrefixIsChecked(t);
    if f.Fields? {
      FieldsAreSaid(t, f);
      BodyIsExplained(s, f);
    } else {
      forall g: Parsed | g.Fields? ensures !HeaderSays(t, g) {
        FieldsAreSaid(t, g);
      }
    }
  }

  lemma AfterBlankLine(turn: TurnFunction, text: string, max: nat)
    requires Consumes(turn) && max > 0 && turn(Opened("\n" + text)) == (BlankLine, Opened(text))
    ensures Loop(turn, Opened("\n" + text), max) == Loop(turn, Opened(text), max)
  {
  }

  /** Blank lines between frames change nothing. */
  lemma BlankLinesAreSkipped(text: string, max: nat)
    requires max > 0
    ensures ReadFrames(Opened("\n" + text), max) == ReadFrames(Opened(text), max)
  {
    TurnsConsume();
    LineThenRest("", text);
    assert "" + "\n" + text == "\n" + text;
    AfterBlankLine(TurnFrom, text, max);
  }
}
