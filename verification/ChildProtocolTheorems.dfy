/** Printer and parser of the child protocol undo each other, and exactly when. */
module ChildProtocolTheorems {
  import opened Options
  import opened Sequences
  import opened Text
  import opened Decimals
  import opened ChildProtocol

  // ---------------------------------------------------------------- escaping

  /** Taking in the spelling of a character after a text is taking in the character itself. */
  ghost predicate Undoes(unescape: (Unescaping, char) -> Unescaping, spell: char -> string) {
    forall text, c :: TakeIn(unescape, Unescaping(text, false), spell(c)) == Unescaping(text + [c], false)
  }

  lemma UnescapeUndoes()
    ensures Undoes(UnescapeStep, EscapeChar)
  {
    forall text: string, c
      ensures TakeIn(UnescapeStep, Unescaping(text, false), EscapeChar(c)) == Unescaping(text + [c], false)
    {
      var start, e := Unescaping(text, false), EscapeChar(c);
      TakeInSnoc(UnescapeStep, start, "", e[0]);
      assert "" + [e[0]] == [e[0]];
      if |e| == 2 {
        TakeInSnoc(UnescapeStep, start, [e[0]], e[1]);
        assert e == [e[0]] + [e[1]];
      } else {
        assert e == [e[0]];
      }
    }
  }

  lemma {:induction false} TakeInParts<S>(step: (S, char) -> S, start: S, a: string, b: string)
    ensures TakeIn(step, start, a + b) == TakeIn(step, TakeIn(step, start, a), b)
    decreases |b|
  {
    if b == "" {
      assert a + b == a;
    } else {
      assert (a + b)[..|a + b| - 1] == a + b[..|b| - 1];
      TakeInParts(step, start, a, b[..|b| - 1]);
    }
  }

  lemma {:induction false} UnescapingASpelling(
      unescape: (Unescaping, char) -> Unescaping, spell: char -> string, s: string)
    requires Undoes(unescape, spell)
    ensures TakeIn(unescape, Unescaping("", false), Spelled(spell, s)) == Unescaping(s, false)
  {
    if s != "" {
      var front, c := s[..|s| - 1], s[|s| - 1];
      UnescapingASpelling(unescape, spell, front);
      TakeInParts(unescape, Unescaping("", false), Spelled(spell, front), spell(c));
      assert front + [c] == s;
    }
  }

  /** Every value survives, whatever its characters are. */
  lemma EscapeRoundTrip(s: string)
    ensures Unescape(Escape(s)) == s
  {
    UnescapeUndoes();
    UnescapingASpelling(UnescapeStep, EscapeChar, s);
  }

  /** The two characters that delimit tokens and messages never occur in an escaped value. */
  lemma EscapedHasNoDelimiter(s: string)
    ensures '\t' !in Escape(s) && '\n' !in Escape(s)
  {
    SpelledChars(EscapeChar, s, '\t');
    SpelledChars(EscapeChar, s, '\n');
  }

  function Chomp(value: string): string {
    DropLast(value, '\r')
  }

  /** A carriage return is not escaped, so a final one is dropped with the end of the line. */
  lemma EscapeKeepsFinalReturn(value: string)
    ensures DropLast(Escape(value), '\r') == Escape(Chomp(value))
    ensures DropLast(Escape(value), '\n') == Escape(value)
  {
    EscapedHasNoDelimiter(value);
    if value != "" {
      var front, c := value[..|value| - 1], value[|value| - 1];
      DropLastEscaped(Escape(front), c);
    }
  }

  lemma DropLastEscaped(written: string, c: char)
    ensures var w := written + EscapeChar(c); DropLast(w, '\r') == if c == '\r' then written else w
  {
    var e := EscapeChar(c);
    var w := written + e;
    assert w[|w| - 1] == e[|e| - 1];
    assert w[..|w| - |e|] == written;
  }

  // ---------------------------------------------------------------- one token

  predicate CleanKey(key: string) {
    '=' !in key && '\t' !in key
  }

  function Chomped(e: Entry): Entry {
    Entry(e.key, Chomp(e.value))
  }

  /** The end of a line: with its newline, or already without. */
  predicate IsEnding(ending: string) {
    ending == "" || ending == ['\n']
  }

  lemma DropLastOfConcat(a: string, b: string, c: char)
    requires b != "" || (a != "" && a[|a| - 1] != c)
    ensures DropLast(a + b, c) == a + DropLast(b, c)
  {
    if b == "" {
      assert a + b == a;
    } else {
      assert (a + b)[|a + b| - 1] == b[|b| - 1];
      assert (a + b)[..|a + b| - 1] == a + b[..|b| - 1];
    }
  }

  lemma StripText(text: string, ending: string)
    requires IsEnding(ending) && text != "" && text[|text| - 1] != '\n'
    ensures Strip(text + ending) == DropLast(text, '\r')
  {
    if ending == "" {
      assert text + ending == text;
    } else {
      DropLastOfConcat(text, ending, '\n');
      assert text + "" == text;
    }
  }

  lemma StripPair(key: string, text: string, ending: string)
    requires IsEnding(ending) && DropLast(text, '\n') == text
    ensures Strip(key + "=" + text + ending) == key + "=" + DropLast(text, '\r')
  {
    var prefix := key + "=";
    assert prefix[|prefix| - 1] == '=';
    var all := prefix + text;
    assert all[|all| - 1] == if text == "" then '=' else text[|text| - 1];
    StripText(all, ending);
    DropLastOfConcat(prefix, text, '\r');
  }

  lemma StripToken(e: Entry, ending: string)
    requires IsEnding(ending)
    ensures Strip(Token(e) + ending) == Token(Chomped(e))
  {
    EscapeKeepsFinalReturn(e.value);
    StripPair(e.key, Escape(e.value), ending);
  }

  /** A written token is read as its entry, without the carriage return its value may end in. */
  lemma TokenIsRead(e: Entry, ending: string)
    requires IsEnding(ending) && CleanKey(e.key)
    ensures EntryIn(Token(e) + ending) == Some(Chomped(e))
  {
    StripToken(e, ending);
    var c := Chomped(e);
    var t := Token(c);
    assert t[..|e.key|] == e.key && t[|e.key|] == '=';
    IndexOfFirst(t, '=', |e.key|);
    assert t[|e.key| + 1..] == Escape(c.value);
    EscapeRoundTrip(c.value);
  }

  // ---------------------------------------------------------------- all tokens

  predicate CleanKeys(es: seq<Entry>) {
    forall e :: e in es ==> CleanKey(e.key)
  }

  lemma TokenHasNoTab(e: Entry)
    requires CleanKey(e.key)
    ensures '\t' !in Token(e) && Token(e) != ""
  {
    EscapedHasNoDelimiter(e.value);
  }

  /** The parts, the last one with an ending. */
  function Ended(parts: seq<string>, ending: string): seq<string>
    requires parts != []
  {
    parts[..|parts| - 1] + [parts[|parts| - 1] + ending]
  }

  lemma JoinEnded(parts: seq<string>, ending: string, sep: char)
    requires parts != []
    ensures Join(parts, sep) + ending == Join(Ended(parts, ending), sep)
  {
    var front, last := parts[..|parts| - 1], parts[|parts| - 1];
    assert parts == front + [last];
    if front == [] {
      assert Ended(parts, ending) == [last + ending];
    } else {
      JoinSnoc(front, last, sep);
      JoinSnoc(front, last + ending, sep);
    }
  }

  /** Splitting at tabs finds the tokens again. */
  lemma TokensAreFound(es: seq<Entry>, ending: string)
    requires es != [] && CleanKeys(es) && IsEnding(ending)
    ensures Pieces(JoinTokens(es) + ending, '\t') == Ended(TokensFor(es), ending)
  {
    TokensAreParts(es);
    EndedAreParts(TokensFor(es), ending, '\t');
    JoinEnded(TokensFor(es), ending, '\t');
    JoinedPieces(Ended(TokensFor(es), ending), '\t');
  }

  lemma TokensAreParts(es: seq<Entry>)
    requires CleanKeys(es)
    ensures AreParts(TokensFor(es), '\t')
  {
    forall i | 0 <= i < |es| ensures TokensFor(es)[i] != "" && '\t' !in TokensFor(es)[i] {
      TokenHasNoTab(es[i]);
    }
  }

  lemma EndedAreParts(parts: seq<string>, ending: string, sep: char)
    requires parts != [] && AreParts(parts, sep) && sep !in ending
    ensures AreParts(Ended(parts, ending), sep)
  {
  }

  /** Entries one after the other, as the parser enters them. */
  function EnterEntries(enter: EntryStep, es: seq<Entry>): Option<Draft> {
    if es == [] then Some(NewDraft())
    else
      var before := EnterEntries(enter, es[..|es| - 1]);
      if before.None? then None else enter(before.value, es[|es| - 1])
  }

  function ChompAll(es: seq<Entry>): seq<Entry> {
    seq(|es|, i requires 0 <= i < |es| => Chomped(es[i]))
  }

  predicate ReadAs(tokens: seq<string>, es: seq<Entry>) {
    |tokens| == |es| && forall i :: 0 <= i < |es| ==> EntryIn(tokens[i]) == Some(es[i])
  }

  lemma {:induction false} TokensEnterEntries(enter: EntryStep, tokens: seq<string>, es: seq<Entry>)
    requires ReadAs(tokens, es)
    ensures EnterTokens(enter, tokens) == EnterEntries(enter, es)
    decreases |es|
  {
    if es != [] {
      TokensEnterEntries(enter, tokens[..|es| - 1], es[..|es| - 1]);
    }
  }

  /** The parser enters what was written, each value without its final carriage return. */
  lemma WrittenEntriesAreEntered(enter: EntryStep, es: seq<Entry>, ending: string)
    requires es != [] && CleanKeys(es) && IsEnding(ending)
    ensures EnterTokens(enter, Pieces(JoinTokens(es) + ending, '\t')) == EnterEntries(enter, ChompAll(es))
  {
    TokensAreFound(es, ending);
    var tokens := Ended(TokensFor(es), ending);
    forall i | 0 <= i < |es| ensures EntryIn(tokens[i]) == Some(ChompAll(es)[i]) {
      TokenIsRead(es[i], "");
      TokenIsRead(es[i], ending);
      assert tokens[i] == if i == |es| - 1 then Token(es[i]) + ending else Token(es[i]);
      assert Token(es[i]) + "" == Token(es[i]);
    }
    TokensEnterEntries(enter, tokens, ChompAll(es));
  }

  // ---------------------------------------------------------------- the whole message

  predicate Reserved(key: string) {
    key == "event" || key == "packets" || key == "dropped" || key == "capture_path" || key == "message"
  }

  lemma EnterEvent(d: Draft, t: MessageType)
    ensures Enter(d, Entry("event", TypeName(t))) == Some(Draft(d.message.(kind := t), true))
  {
    TypeNameIsPlain(t);
  }

  lemma EnterPackets(d: Draft, n: nat)
    requires n <= UINT64_MAX
    ensures Enter(d, Entry("packets", PrintNat(n))) == Some(d.(message := d.message.(packetCount := n)))
  {
    UnsignedRoundTrip(n);
    assert |"packets"| != |"event"|;
  }

  lemma EnterDropped(d: Draft, n: nat)
    requires n <= UINT64_MAX
    ensures Enter(d, Entry("dropped", PrintNat(n))) == Some(d.(message := d.message.(droppedCount := n)))
  {
    UnsignedRoundTrip(n);
    assert |"dropped"| != |"event"| && "dropped"[0] != "packets"[0];
  }

  lemma EnterPath(d: Draft, value: string)
    ensures Enter(d, Entry("capture_path", value)) == Some(d.(message := d.message.(capturePath := value)))
  {
    assert |"capture_path"| > 7 && |"event"| <= 7 && |"packets"| <= 7 && |"dropped"| <= 7;
  }

  lemma EnterText(d: Draft, value: string)
    ensures Enter(d, Entry("message", value)) == Some(d.(message := d.message.(text := value)))
  {
    assert |"message"| == 7 && |"event"| < 7 && |"capture_path"| > 7;
    assert "message"[0] != "packets"[0] && "message"[0] != "dropped"[0];
  }

  lemma EnterEntriesSnoc(enter: EntryStep, es: seq<Entry>, e: Entry)
    ensures EnterEntries(enter, es + [e])
         == var before := EnterEntries(enter, es);
            if before.None? then None else enter(before.value, e)
  {
    assert (es + [e])[..|es|] == es;
  }

  lemma HeadIsEntered(kind: MessageType, packetCount: nat, droppedCount: nat)
    requires packetCount <= UINT64_MAX && droppedCount <= UINT64_MAX
    ensures EnterEntries(Enter, HeadEntries(kind, packetCount, droppedCount))
         == Some(Draft(Message(kind, packetCount, droppedCount, "", "", map[]), true))
  {
    var es := HeadEntries(kind, packetCount, droppedCount);
    EnterEntriesSnoc(Enter, [], es[0]);
    EnterEntriesSnoc(Enter, [es[0]], es[1]);
    EnterEntriesSnoc(Enter, [es[0], es[1]], es[2]);
    assert [] + [es[0]] == [es[0]] && [es[0]] + [es[1]] == [es[0], es[1]];
    assert [es[0], es[1]] + [es[2]] == es;
    EnterEvent(NewDraft(), kind);
    var d1 := Draft(NewDraft().message.(kind := kind), true);
    EnterPackets(d1, packetCount);
    EnterDropped(d1.(message := d1.message.(packetCount := packetCount)), droppedCount);
  }

  lemma HeadIsNotChomped(kind: MessageType, packetCount: nat, droppedCount: nat)
    ensures ChompAll(HeadEntries(kind, packetCount, droppedCount)) == HeadEntries(kind, packetCount, droppedCount)
  {
    TypeNameIsPlain(kind);
    NumberIsPlain(packetCount);
    NumberIsPlain(droppedCount);
    NotChomped(TypeName(kind));
    NotChomped(PrintNat(packetCount));
    NotChomped(PrintNat(droppedCount));
    TextsNotChomped(TypeName(kind), PrintNat(packetCount), PrintNat(droppedCount));
  }

  lemma TextsNotChomped(event: string, packets: string, dropped: string)
    requires Chomp(event) == event && Chomp(packets) == packets && Chomp(dropped) == dropped
    ensures ChompAll(HeadTexts(event, packets, dropped)) == HeadTexts(event, packets, dropped)
  {
  }

  lemma NotChomped(value: string)
    requires value != "" && value[|value| - 1] != '\r'
    ensures Chomp(value) == value
  {
  }

  lemma PathIsEntered(es: seq<Entry>, d: Draft, path: string)
    requires EnterEntries(Enter, es) == Some(d) && d.message.capturePath == ""
    ensures EnterEntries(Enter, es + ChompAll(OptionalEntry("capture_path", path)))
         == Some(d.(message := d.message.(capturePath := Chomp(path))))
  {
    if path == "" {
      assert es + ChompAll(OptionalEntry("capture_path", path)) == es;
    } else {
      EnterPath(d, Chomp(path));
      EnterEntriesSnoc(Enter, es, Entry("capture_path", Chomp(path)));
      assert ChompAll(OptionalEntry("capture_path", path)) == [Entry("capture_path", Chomp(path))];
    }
  }

  lemma TextIsEntered(es: seq<Entry>, d: Draft, text: string)
    requires EnterEntries(Enter, es) == Some(d) && d.message.text == ""
    ensures EnterEntries(Enter, es + ChompAll(OptionalEntry("message", text)))
         == Some(d.(message := d.message.(text := Chomp(text))))
  {
    if text == "" {
      assert es + ChompAll(OptionalEntry("message", text)) == es;
    } else {
      EnterText(d, Chomp(text));
      EnterEntriesSnoc(Enter, es, Entry("message", Chomp(text)));
      assert ChompAll(OptionalEntry("message", text)) == [Entry("message", Chomp(text))];
    }
  }

  function ChompedFields(fields: map<string, string>): map<string, string> {
    map k | k in fields :: Chomp(fields[k])
  }

  function Restricted(fields: map<string, string>, keys: seq<string>): map<string, string> {
    map k | k in fields && k in keys :: Chomp(fields[k])
  }

  /** The entry is none of the five that the protocol knows: it becomes a field. */
  predicate EntersAsField(enter: EntryStep, d: Draft, e: Entry) {
    enter(d, e) == Some(d.(message := d.message.(fields := d.message.fields[e.key := e.value])))
  }

  ghost predicate EntersAsFields(enter: EntryStep, keys: seq<string>) {
    forall d, e: Entry :: e.key in keys ==> EntersAsField(enter, d, e)
  }

  lemma OtherKeysAreFields(d: Draft, e: Entry)
    requires !Reserved(e.key)
    ensures EntersAsField(Enter, d, e)
  {
  }

  lemma {:induction false} FieldsAreEntered(
      enter: EntryStep, es: seq<Entry>, d: Draft, fields: map<string, string>, keys: seq<string>)
    requires EnterEntries(enter, es) == Some(d) && d.message.fields == map[]
    requires (forall k :: k in keys ==> k in fields) && EntersAsFields(enter, keys)
    ensures EnterEntries(enter, es + ChompAll(FieldEntries(fields, keys)))
         == Some(d.(message := d.message.(fields := Restricted(fields, keys))))
    decreases |keys|
  {
    if keys == [] {
      assert es + ChompAll(FieldEntries(fields, keys)) == es;
      assert Restricted(fields, keys) == map[];
    } else {
      var front, key := keys[..|keys| - 1], keys[|keys| - 1];
      assert key in keys;
      assert keys == front + [key];
      FieldsAreEntered(enter, es, d, fields, front);
      var before := es + ChompAll(FieldEntries(fields, front));
      var last := Entry(key, Chomp(fields[key]));
      EnterEntriesSnoc(enter, before, last);
      assert EntersAsField(enter, d.(message := d.message.(fields := Restricted(fields, front))), last);
      ChompedFieldsSnoc(es, fields, front, key);
      RestrictedSnoc(fields, front, key);
    }
  }

  lemma ChompedFieldsSnoc(es: seq<Entry>, fields: map<string, string>, keys: seq<string>, key: string)
    requires key in fields && forall k :: k in keys ==> k in fields
    ensures es + ChompAll(FieldEntries(fields, keys + [key]))
         == es + ChompAll(FieldEntries(fields, keys)) + [Entry(key, Chomp(fields[key]))]
  {
    assert (keys + [key])[..|keys|] == keys && (keys + [key])[..|keys| + 1] == keys + [key];
    FieldEntriesSnoc(fields, keys + [key], |keys|, []);
    assert [] + FieldEntries(fields, keys) == FieldEntries(fields, keys);
    assert [] + FieldEntries(fields, keys + [key]) == FieldEntries(fields, keys + [key]);
    ChompAllConcat(FieldEntries(fields, keys), [Entry(key, fields[key])]);
  }

  lemma ChompAllConcat(a: seq<Entry>, b: seq<Entry>)
    ensures ChompAll(a + b) == ChompAll(a) + ChompAll(b)
  {
  }

  lemma RestrictedSnoc(fields: map<string, string>, keys: seq<string>, key: string)
    requires key in fields
    ensures Restricted(fields, keys + [key]) == Restricted(fields, keys)[key := Chomp(fields[key])]
  {
  }

  /** The message without the carriage returns that its values may end in. */
  function ReadBack(m: Message): Message {
    m.(capturePath := Chomp(m.capturePath), text := Chomp(m.text), fields := ChompedFields(m.fields))
  }

  /** Both counters have the range of their C++ type, `std::uint64_t`. */
  predicate InRange(m: Message) {
    m.packetCount <= UINT64_MAX && m.droppedCount <= UINT64_MAX
  }

  /** A field whose key could be mistaken for something else. */
  predicate UsableKey(key: string) {
    CleanKey(key) && !Reserved(key)
  }

  predicate UsableKeys(fields: map<string, string>) {
    forall k :: k in fields ==> UsableKey(k)
  }

  lemma EntriesAreEntered(m: Message)
    requires InRange(m) && UsableKeys(m.fields)
    ensures EnterEntries(Enter, ChompAll(Entries(m))) == Some(Draft(ReadBack(m), true))
  {
    var head := HeadEntries(m.kind, m.packetCount, m.droppedCount);
    var path, text := OptionalEntry("capture_path", m.capturePath), OptionalEntry("message", m.text);
    var keys := InOrder(m.fields.Keys);
    var fields := FieldEntries(m.fields, keys);
    HeadIsNotChomped(m.kind, m.packetCount, m.droppedCount);
    HeadIsEntered(m.kind, m.packetCount, m.droppedCount);
    var d := Draft(Message(m.kind, m.packetCount, m.droppedCount, "", "", map[]), true);
    PathIsEntered(head, d, m.capturePath);
    d := d.(message := d.message.(capturePath := Chomp(m.capturePath)));
    TextIsEntered(head + ChompAll(path), d, m.text);
    d := d.(message := d.message.(text := Chomp(m.text)));
    forall d, e: Entry | e.key in keys ensures EntersAsField(Enter, d, e) {
      OtherKeysAreFields(d, e);
    }
    FieldsAreEntered(Enter, head + ChompAll(path) + ChompAll(text), d, m.fields, keys);
    assert Restricted(m.fields, keys) == ChompedFields(m.fields);
    ChompAllConcat(head, path);
    ChompAllConcat(head + path, text);
    ChompAllConcat(head + path + text, fields);
  }

  lemma HeadKeysAreClean(kind: MessageType, packetCount: nat, droppedCount: nat)
    ensures CleanKeys(HeadEntries(kind, packetCount, droppedCount))
  {
    assert CleanKey("event");
    assert CleanKey("packets");
    assert CleanKey("dropped");
  }

  lemma OptionalKeysAreClean(path: string, text: string)
    ensures CleanKeys(OptionalEntry("capture_path", path)) && CleanKeys(OptionalEntry("message", text))
  {
    assert CleanKey("capture_path");
    assert CleanKey("message");
  }

  lemma FieldKeysAreClean(fields: map<string, string>)
    requires UsableKeys(fields)
    ensures CleanKeys(FieldEntries(fields, InOrder(fields.Keys)))
  {
    var keys := InOrder(fields.Keys);
    var es := FieldEntries(fields, keys);
    forall e | e in es ensures CleanKey(e.key) {
      var i :| 0 <= i < |es| && es[i] == e;
      assert e.key == keys[i] && keys[i] in keys;
      assert UsableKey(keys[i]);
    }
  }

  lemma CleanConcat(a: seq<Entry>, b: seq<Entry>)
    requires CleanKeys(a) && CleanKeys(b)
    ensures CleanKeys(a + b)
  {
  }

  lemma EntryKeysAreClean(m: Message)
    requires UsableKeys(m.fields)
    ensures CleanKeys(Entries(m))
  {
    var head := HeadEntries(m.kind, m.packetCount, m.droppedCount);
    var path, text := OptionalEntry("capture_path", m.capturePath), OptionalEntry("message", m.text);
    HeadKeysAreClean(m.kind, m.packetCount, m.droppedCount);
    OptionalKeysAreClean(m.capturePath, m.text);
    FieldKeysAreClean(m.fields);
    CleanConcat(head, path);
    CleanConcat(head + path, text);
    CleanConcat(head + path + text, FieldEntries(m.fields, InOrder(m.fields.Keys)));
  }

  /** What a written message is read as: itself, without final carriage returns. With or
      without the newline at its end. */
  lemma WrittenIsRead(m: Message, ending: string)
    requires InRange(m) && UsableKeys(m.fields) && IsEnding(ending)
    ensures Parse(JoinTokens(Entries(m)) + ending) == Some(ReadBack(m))
  {
    EntryKeysAreClean(m);
    WrittenEntriesAreEntered(Enter, Entries(m), ending);
    EntriesAreEntered(m);
  }

  // ---------------------------------------------------------------- what any line can be read as

  lemma EntryOfTokenHasCleanKey(token: string)
    requires '\t' !in token && EntryIn(token).Some?
    ensures CleanKey(EntryIn(token).value.key)
  {
    var t := Strip(token);
    forall c | c in t ensures c in token {
    }
  }

  ghost predicate KeepsKeysUsable(enter: EntryStep) {
    forall d: Draft, e: Entry ::
      UsableKeys(d.message.fields) && CleanKey(e.key) && enter(d, e).Some?
      ==> UsableKeys(enter(d, e).value.message.fields)
  }

  lemma EnterKeepsKeysUsable()
    ensures KeepsKeysUsable(Enter)
  {
    forall d: Draft, e: Entry |
      UsableKeys(d.message.fields) && CleanKey(e.key) && Enter(d, e).Some?
      ensures UsableKeys(Enter(d, e).value.message.fields) {
      if Reserved(e.key) {
        assert Enter(d, e).value.message.fields == d.message.fields;
      }
    }
  }

  lemma {:induction false} EnteredKeysAreUsable(enter: EntryStep, tokens: seq<string>)
    requires KeepsKeysUsable(enter) && forall t :: t in tokens ==> '\t' !in t
    requires EnterTokens(enter, tokens).Some?
    ensures UsableKeys(EnterTokens(enter, tokens).value.message.fields)
    decreases |tokens|
  {
    if tokens != [] {
      EnteredKeysAreUsable(enter, tokens[..|tokens| - 1]);
      var last := tokens[|tokens| - 1];
      if EntryIn(last).Some? {
        EntryOfTokenHasCleanKey(last);
      }
    }
  }

  /** Whatever line was read, its fields have keys that can be written again. */
  lemma ParsedKeysAreUsable(line: string)
    requires Parse(line).Some?
    ensures UsableKeys(Parse(line).value.fields)
  {
    PiecesHaveNoSeparator(line, '\t');
    EnterKeepsKeysUsable();
    EnteredKeysAreUsable(Enter, Pieces(line, '\t'));
  }

  predicate EndsInReturn(value: string) {
    value != "" && value[|value| - 1] == '\r'
  }

  /** The exact condition on a message for it to survive. */
  predicate Survives(m: Message) {
    UsableKeys(m.fields)
    && !EndsInReturn(m.capturePath) && !EndsInReturn(m.text)
    && forall k :: k in m.fields ==> !EndsInReturn(m.fields[k])
  }

  lemma ReadBackIsTheMessage(m: Message)
    requires UsableKeys(m.fields)
    ensures ReadBack(m) == m <==> Survives(m)
  {
    if Survives(m) {
      assert ChompedFields(m.fields) == m.fields;
    }
    if ReadBack(m) == m {
      forall k | k in m.fields ensures Chomp(m.fields[k]) == m.fields[k] {
        assert k in ReadBack(m).fields;
      }
    }
  }

  /** A message is read back as itself exactly when it is written with keys that are neither
      reserved nor hold a tab or an equals sign, and no value ends in a carriage return. */
  lemma MessageRoundTrip(m: Message)
    requires InRange(m)
    ensures Parse(Serialize(m)) == Some(m) <==> Survives(m)
  {
    if Parse(Serialize(m)) == Some(m) {
      ParsedKeysAreUsable(Serialize(m));
    }
    if UsableKeys(m.fields) {
      WrittenIsRead(m, "\n");
      ReadBackIsTheMessage(m);
    }
  }

  /** A reserved key is taken for the message's own, so the field is lost. */
  lemma ReservedKeyIsLost()
    ensures var m := Message(Stopped, 0, 0, "", "", map["message" := ""]);
            Parse(Serialize(m)) != Some(m)
  {
    var m := Message(Stopped, 0, 0, "", "", map["message" := ""]);
    assert "message" in m.fields && Reserved("message");
    MessageRoundTrip(m);
  }

  // ---------------------------------------------------------------- many messages

  predicate OneLineKeys(es: seq<Entry>) {
    forall e :: e in es ==> '\n' !in e.key
  }

  lemma TokenIsOneLine(e: Entry)
    ensures '\n' in Token(e) <==> '\n' in e.key
  {
    EscapedHasNoDelimiter(e.value);
  }

  lemma NewlinesComeFromKeys(es: seq<Entry>)
    ensures '\n' !in JoinTokens(es) <==> OneLineKeys(es)
  {
    JoinedChars(TokensFor(es), '\t', '\n');
    forall i | 0 <= i < |es| ensures '\n' in TokensFor(es)[i] <==> '\n' in es[i].key {
      TokenIsOneLine(es[i]);
    }
    if '\n' !in JoinTokens(es) {
      forall e | e in es ensures '\n' !in e.key {
        var i :| 0 <= i < |es| && es[i] == e;
        assert '\n' !in TokensFor(es)[i];
      }
    }
  }

  /** A message takes one line of the stream. */
  predicate TakesOneLine(m: Message) {
    forall k :: k in m.fields ==> '\n' !in k
  }

  lemma HeadIsOneLine(kind: MessageType, packetCount: nat, droppedCount: nat)
    ensures OneLineKeys(HeadEntries(kind, packetCount, droppedCount))
  {
    assert '\n' !in "event";
    assert '\n' !in "packets";
    assert '\n' !in "dropped";
  }

  lemma OptionalIsOneLine(path: string, text: string)
    ensures OneLineKeys(OptionalEntry("capture_path", path)) && OneLineKeys(OptionalEntry("message", text))
  {
    assert '\n' !in "capture_path";
    assert '\n' !in "message";
  }

  lemma FieldsAreOneLine(fields: map<string, string>)
    ensures OneLineKeys(FieldEntries(fields, InOrder(fields.Keys))) <==> forall k :: k in fields ==> '\n' !in k
  {
    var keys := InOrder(fields.Keys);
    var es := FieldEntries(fields, keys);
    forall k | k in fields ensures exists e :: e in es && e.key == k {
      var i :| 0 <= i < |keys| && keys[i] == k;
      assert es[i] in es;
    }
  }

  lemma OneLineConcat(a: seq<Entry>, b: seq<Entry>)
    ensures OneLineKeys(a + b) <==> OneLineKeys(a) && OneLineKeys(b)
  {
    forall e ensures e in a + b <==> e in a || e in b {
    }
  }

  function Body(m: Message): string {
    JoinTokens(Entries(m))
  }

  lemma BodyHasNoNewline(m: Message)
    ensures '\n' !in Body(m) <==> TakesOneLine(m)
  {
    var head := HeadEntries(m.kind, m.packetCount, m.droppedCount);
    var path, text := OptionalEntry("capture_path", m.capturePath), OptionalEntry("message", m.text);
    HeadIsOneLine(m.kind, m.packetCount, m.droppedCount);
    OptionalIsOneLine(m.capturePath, m.text);
    FieldsAreOneLine(m.fields);
    OneLineConcat(head, path);
    OneLineConcat(head + path, text);
    OneLineConcat(head + path + text, FieldEntries(m.fields, InOrder(m.fields.Keys)));
    NewlinesComeFromKeys(Entries(m));
  }

  /** The stream has one line for a message exactly when no key holds a newline. */
  lemma OneLinePerMessage(m: Message)
    ensures Pieces(Serialize(m), '\n') == [Body(m)] <==> TakesOneLine(m)
  {
    BodyHasNoNewline(m);
    if TakesOneLine(m) {
      SplitOnce(Body(m), "", '\n');
      assert Serialize(m) == Body(m) + ['\n'] + "";
    } else {
      PiecesHaveNoSeparator(Serialize(m), '\n');
    }
  }

  function Lines(ms: seq<Message>): seq<string> {
    seq(|ms|, i requires 0 <= i < |ms| => Serialize(ms[i]))
  }

  function Bodies(ms: seq<Message>): seq<string> {
    seq(|ms|, i requires 0 <= i < |ms| => Body(ms[i]))
  }

  function Terminated(bodies: seq<string>): seq<string> {
    seq(|bodies|, i requires 0 <= i < |bodies| => bodies[i] + ['\n'])
  }

  lemma {:induction false} LinesAreFound(bodies: seq<string>)
    requires forall b :: b in bodies ==> '\n' !in b
    ensures Pieces(Flat(Terminated(bodies)), '\n') == bodies
  {
    if bodies != [] {
      LinesAreFound(bodies[1..]);
      assert Terminated(bodies)[1..] == Terminated(bodies[1..]);
      SplitOnce(bodies[0], Flat(Terminated(bodies[1..])), '\n');
    }
  }

  lemma StreamSplitsIntoBodies(ms: seq<Message>)
    requires forall m :: m in ms ==> TakesOneLine(m)
    ensures Pieces(Flat(Lines(ms)), '\n') == Bodies(ms)
  {
    forall b | b in Bodies(ms) ensures '\n' !in b {
      var i :| 0 <= i < |ms| && b == Body(ms[i]);
      BodyHasNoNewline(ms[i]);
    }
    LinesAreFound(Bodies(ms));
    assert Lines(ms) == Terminated(Bodies(ms)) by {
      forall i | 0 <= i < |ms| ensures Lines(ms)[i] == Terminated(Bodies(ms))[i] {
        LineIsBody(ms[i]);
      }
    }
  }

  lemma LineIsBody(m: Message)
    ensures Serialize(m) == Body(m) + ['\n']
  {
  }

  /** Messages written one after the other and split at newlines are the same messages. */
  lemma MessageStreamRoundTrip(ms: seq<Message>)
    requires forall m :: m in ms ==> InRange(m) && Survives(m) && TakesOneLine(m)
    ensures var lines := Pieces(Flat(Lines(ms)), '\n');
            |lines| == |ms| && forall i :: 0 <= i < |ms| ==> Parse(lines[i]) == Some(ms[i])
  {
    StreamSplitsIntoBodies(ms);
    forall i | 0 <= i < |ms| ensures Parse(Bodies(ms)[i]) == Some(ms[i]) {
      assert ms[i] in ms;
      WrittenIsRead(ms[i], "");
      ReadBackIsTheMessage(ms[i]);
      assert Body(ms[i]) + "" == Body(ms[i]);
    }
  }
}
