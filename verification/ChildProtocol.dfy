/** The tab-separated messages between the capture child and its parent. */
module ChildProtocol {
  import opened Options
  import opened Text
  import opened Decimals

  datatype MessageType = Started | NewData | Dropped | Error | Stopped

  datatype Message = Message(
    kind: MessageType, packetCount: nat, droppedCount: nat, capturePath: string, text: string,
    fields: map<string, string>)

  function TypeName(t: MessageType): string {
    match t
    case Started => "started"
    case NewData => "new_data"
    case Dropped => "dropped"
    case Error => "error"
    case Stopped => "stopped"
  }

  function ParseType(s: string): Option<MessageType> {
    if s == "started" then Some(Started)
    else if s == "new_data" then Some(NewData)
    else if s == "dropped" then Some(Dropped)
    else if s == "error" then Some(Error)
    else if s == "stopped" then Some(Stopped)
    else None
  }

  // ---------------------------------------------------------------- escaping

  function EscapeChar(c: char): string {
    if c == '\\' then "\\\\" else if c == '\n' then "\\n" else if c == '\t' then "\\t" else [c]
  }

  function Escape(s: string): string {
    Spelled(EscapeChar, s)
  }

  method EscapeField(value: string) returns (output: string)
    ensures output == Escape(value)
  {
    output := "";
    for i := 0 to |value|
      invariant output == Escape(value[..i])
    {
      assert value[..i + 1] == value[..i] + [value[i]];
      SpelledSnoc(EscapeChar, value[..i], value[i]);
      match value[i]
      case '\\' => output := output + "\\\\";
      case '\n' => output := output + "\\n";
      case '\t' => output := output + "\\t";
      case c => output := output + [c];
    }
    assert value[..|value|] == value;
  }

  /** What has been produced, and whether a backslash is waiting for its character. */
  datatype Unescaping = Unescaping(output: string, escaped: bool)

  function UnescapeStep(u: Unescaping, c: char): Unescaping {
    if u.escaped then
      Unescaping(u.output + [if c == 'n' then '\n' else if c == 't' then '\t' else c], false)
    else if c == '\\' then u.(escaped := true)
    else Unescaping(u.output + [c], false)
  }

  function UnescapeAll(s: string): Unescaping {
    TakeIn(UnescapeStep, Unescaping("", false), s)
  }

  function Unescape(s: string): string {
    var u := UnescapeAll(s);
    if u.escaped then u.output + "\\" else u.output
  }

  method UnescapeField(value: string) returns (output: string)
    ensures output == Unescape(value)
  {
    output := "";
    var escaped := false;
    for i := 0 to |value|
      invariant UnescapeAll(value[..i]) == Unescaping(output, escaped)
    {
      assert value[..i + 1] == value[..i] + [value[i]];
      TakeInSnoc(UnescapeStep, Unescaping("", false), value[..i], value[i]);
      var character := value[i];
      if escaped {
        if character == 'n' {
          output := output + ['\n'];
        } else if character == 't' {
          output := output + ['\t'];
        } else {
          output := output + [character];
        }
        escaped := false;
        continue;
      }
      if character == '\\' {
        escaped := true;
        continue;
      }
      output := output + [character];
    }
    assert value[..|value|] == value;
    if escaped {
      output := output + "\\";
    }
  }

  // ---------------------------------------------------------------- entries

  datatype Entry = Entry(key: string, value: string)

  function HeadTexts(event: string, packets: string, dropped: string): seq<Entry> {
    [Entry("event", event), Entry("packets", packets), Entry("dropped", dropped)]
  }

  function HeadEntries(kind: MessageType, packetCount: nat, droppedCount: nat): seq<Entry> {
    HeadTexts(TypeName(kind), PrintNat(packetCount), PrintNat(droppedCount))
  }

  /** An entry that is written only when it says something. */
  function OptionalEntry(key: string, value: string): seq<Entry> {
    if value == "" then [] else [Entry(key, value)]
  }

  /** A message as key and value pairs, in the order of writing. */
  function Entries(m: Message): seq<Entry> {
    HeadEntries(m.kind, m.packetCount, m.droppedCount)
    + OptionalEntry("capture_path", m.capturePath) + OptionalEntry("message", m.text)
    + FieldEntries(m.fields, InOrder(m.fields.Keys))
  }

  function FieldEntries(fields: map<string, string>, keys: seq<string>): seq<Entry>
    requires forall k :: k in keys ==> k in fields
  {
    seq(|keys|, i requires 0 <= i < |keys| => Entry(keys[i], fields[keys[i]]))
  }

  function Token(e: Entry): string {
    e.key + "=" + Escape(e.value)
  }

  function TokensFor(es: seq<Entry>): seq<string> {
    seq(|es|, i requires 0 <= i < |es| => Token(es[i]))
  }

  function JoinTokens(es: seq<Entry>): string {
    Join(TokensFor(es), '\t')
  }

  function Serialize(m: Message): string {
    JoinTokens(Entries(m)) + "\n"
  }

  lemma JoinTokensSnoc(es: seq<Entry>, e: Entry)
    requires es != []
    ensures JoinTokens(es + [e]) == JoinTokens(es) + "\t" + Token(e)
  {
    JoinSnoc(TokensFor(es), Token(e), '\t');
    assert TokensFor(es + [e]) == TokensFor(es) + [Token(e)];
  }

  method AppendEntry(output: string, key: string, value: string, ghost written: seq<Entry>)
    returns (longer: string)
    requires written != [] && output == JoinTokens(written)
    ensures longer == JoinTokens(written + [Entry(key, value)])
  {
    JoinTokensSnoc(written, Entry(key, value));
    var escaped := EscapeField(value);
    longer := output + "\t" + (key + "=" + escaped);
  }

  predicate IsPlain(c: char) {
    c != '\\' && c != '\n' && c != '\t'
  }

  /** Text that needs no escaping is written as it is. */
  lemma EscapePlain(s: string)
    requires forall c :: c in s ==> IsPlain(c)
    ensures Escape(s) == s
  {
    forall c | IsPlain(c) ensures EscapeChar(c) == [c] {
    }
    SpelledAsIs(EscapeChar, s);
  }

  lemma TypeNameIsPlain(t: MessageType)
    ensures Escape(TypeName(t)) == TypeName(t)
    ensures ParseType(TypeName(t)) == Some(t)
    ensures TypeName(t)[|TypeName(t)| - 1] != '\r'
  {
    EscapePlain(TypeName(t));
  }

  lemma NumberIsPlain(n: nat)
    ensures Escape(PrintNat(n)) == PrintNat(n)
    ensures PrintNat(n)[|PrintNat(n)| - 1] != '\r'
  {
    var s := PrintNat(n);
    forall c | c in s ensures IsDigit(c) && IsPlain(c) {
    }
    EscapePlain(s);
  }

  lemma JoinThree(a: Entry, b: Entry, c: Entry)
    ensures JoinTokens([a, b, c]) == Token(a) + "\t" + Token(b) + "\t" + Token(c)
  {
    JoinTokensSnoc([a], b);
    JoinTokensSnoc([a, b], c);
    assert [a] + [b] == [a, b] && [a, b] + [c] == [a, b, c];
  }

  method SerializeHead(kind: MessageType, packetCount: nat, droppedCount: nat) returns (output: string)
    ensures output == JoinTokens(HeadEntries(kind, packetCount, droppedCount))
  {
    var eventKey, packetsKey, droppedKey := "event", "packets", "dropped";
    var eventText, packetsText, droppedText := TypeName(kind), PrintNat(packetCount), PrintNat(droppedCount);
    TypeNameIsPlain(kind);
    NumberIsPlain(packetCount);
    NumberIsPlain(droppedCount);
    output := JoinPlain(eventKey, eventText, packetsKey, packetsText, droppedKey, droppedText);
  }

  /** Three values that need no escaping, each after its key. */
  method JoinPlain(ka: string, a: string, kb: string, b: string, kc: string, c: string)
    returns (output: string)
    requires Escape(a) == a && Escape(b) == b && Escape(c) == c
    ensures output == JoinTokens([Entry(ka, a), Entry(kb, b), Entry(kc, c)])
  {
    JoinThree(Entry(ka, a), Entry(kb, b), Entry(kc, c));
    output := (ka + "=" + a) + "\t" + (kb + "=" + b) + "\t" + (kc + "=" + c);
  }

  method AppendOptional(output: string, key: string, value: string, ghost written: seq<Entry>)
    returns (longer: string)
    requires written != [] && output == JoinTokens(written)
    ensures longer == JoinTokens(written + OptionalEntry(key, value))
  {
    if value == "" {
      assert written + OptionalEntry(key, value) == written;
      return output;
    }
    longer := AppendEntry(output, key, value, written);
  }

  method AppendFields(output: string, fields: map<string, string>, ghost written: seq<Entry>)
    returns (longer: string)
    requires written != [] && output == JoinTokens(written)
    ensures longer == JoinTokens(written + FieldEntries(fields, InOrder(fields.Keys)))
  {
    longer := output;
    var keys := InOrder(fields.Keys);
    ghost var done := written;
    assert written + FieldEntries(fields, keys[..0]) == written;
    for i := 0 to |keys|
      invariant done == written + FieldEntries(fields, keys[..i]) && done != []
      invariant longer == JoinTokens(done)
    {
      longer := AppendEntry(longer, keys[i], fields[keys[i]], done);
      FieldEntriesSnoc(fields, keys, i, written);
      done := done + [Entry(keys[i], fields[keys[i]])];
    }
    assert keys[..|keys|] == keys;
  }

  lemma FieldEntriesSnoc(fields: map<string, string>, keys: seq<string>, i: nat, written: seq<Entry>)
    requires i < |keys| && forall k :: k in keys ==> k in fields
    ensures written + FieldEntries(fields, keys[..i + 1])
         == written + FieldEntries(fields, keys[..i]) + [Entry(keys[i], fields[keys[i]])]
  {
  }

  method SerializeCaptureChildMessage(m: Message) returns (line: string)
    ensures line == Serialize(m)
  {
    var pathKey, textKey := "capture_path", "message";
    var output := SerializeHead(m.kind, m.packetCount, m.droppedCount);
    ghost var head := HeadEntries(m.kind, m.packetCount, m.droppedCount);
    output := AppendOptional(output, pathKey, m.capturePath, head);
    output := AppendOptional(output, textKey, m.text, head + OptionalEntry(pathKey, m.capturePath));
    output := AppendFields(output, m.fields,
      head + OptionalEntry(pathKey, m.capturePath) + OptionalEntry(textKey, m.text));
    line := output + "\n";
  }

  // ---------------------------------------------------------------- parsing

  function DropLast(s: string, c: char): string {
    if s != "" && s[|s| - 1] == c then s[..|s| - 1] else s
  }

  /** One newline, then one carriage return, is dropped from the end of every token. */
  function Strip(token: string): string {
    DropLast(DropLast(token, '\n'), '\r')
  }

  function EntryIn(token: string): Option<Entry> {
    var t := Strip(token);
    var i := IndexOf(t, '=');
    if i == |t| then None else Some(Entry(t[..i], Unescape(t[i + 1..])))
  }

  datatype Draft = Draft(message: Message, foundType: bool)

  function NewDraft(): Draft {
    Draft(Message(Started, 0, 0, "", "", map[]), false)
  }

  /** What one entry does to the draft; None is a rejected message. */
  function Enter(d: Draft, e: Entry): Option<Draft> {
    var m := d.message;
    if e.key == "event" then
      var t := ParseType(e.value);
      if t.None? then None else Some(Draft(m.(kind := t.value), true))
    else if e.key == "packets" then
      var n := ParseUnsigned(e.value);
      if n.None? then None else Some(d.(message := m.(packetCount := n.value)))
    else if e.key == "dropped" then
      var n := ParseUnsigned(e.value);
      if n.None? then None else Some(d.(message := m.(droppedCount := n.value)))
    else if e.key == "capture_path" then Some(d.(message := m.(capturePath := e.value)))
    else if e.key == "message" then Some(d.(message := m.(text := e.value)))
    else Some(d.(message := m.(fields := m.fields[e.key := e.value])))
  }

  type EntryStep = (Draft, Entry) -> Option<Draft>

  /** Tokens one after the other; those without an equals sign are skipped. */
  function EnterTokens(enter: EntryStep, tokens: seq<string>): Option<Draft> {
    if tokens == [] then Some(NewDraft())
    else
      var before := EnterTokens(enter, tokens[..|tokens| - 1]);
      var e := EntryIn(tokens[|tokens| - 1]);
      if before.None? || e.None? then before else enter(before.value, e.value)
  }

  function Parse(line: string): Option<Message> {
    var d := EnterTokens(Enter, Pieces(line, '\t'));
    if d.None? || !d.value.foundType then None else Some(d.value.message)
  }

  lemma {:induction false} RejectedForGood(enter: EntryStep, tokens: seq<string>, n: nat)
    requires n <= |tokens| && EnterTokens(enter, tokens[..n]).None?
    ensures EnterTokens(enter, tokens).None?
    decreases |tokens|
  {
    if n < |tokens| {
      assert tokens[..|tokens| - 1][..n] == tokens[..n];
      RejectedForGood(enter, tokens[..|tokens| - 1], n);
    } else {
      assert tokens[..n] == tokens;
    }
  }

  method CollectEntries(tokens: seq<string>, enter: EntryStep) returns (d: Option<Draft>)
    ensures d == EnterTokens(enter, tokens)
  {
    var draft := NewDraft();
    for i := 0 to |tokens|
      invariant EnterTokens(enter, tokens[..i]) == Some(draft)
    {
      assert tokens[..i + 1][..i] == tokens[..i];
      var e := EntryIn(tokens[i]);
      if e.None? {
        continue;
      }
      var next := enter(draft, e.value);
      if next.None? {
        RejectedForGood(enter, tokens, i + 1);
        return None;
      }
      draft := next.value;
    }
    assert tokens[..|tokens|] == tokens;
    d := Some(draft);
  }

  method ParseCaptureChildMessage(line: string) returns (message: Option<Message>)
    ensures message == Parse(line)
  {
    var d := CollectEntries(Pieces(line, '\t'), Enter);
    if d.None? || !d.value.foundType {
      return None;
    }
    message := Some(d.value.message);
  }
}
