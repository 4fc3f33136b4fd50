/** What any line at all is read as: when it is rejected, and which entry decides what. */
module ChildProtocolReading {
  import opened Options
  import opened Sequences
  import opened Text
  import opened Decimals
  import opened ChildProtocol
  import opened ChildProtocolTheorems

  /** The entries of a line; tokens without an equals sign are none. */
  function EntriesOf(tokens: seq<string>): seq<Entry> {
    if tokens == [] then []
    else
      var e := EntryIn(tokens[|tokens| - 1]);
      EntriesOf(tokens[..|tokens| - 1]) + if e.Some? then [e.value] else []
  }

  lemma {:induction false} TokensAreEntries(enter: EntryStep, tokens: seq<string>)
    ensures EnterTokens(enter, tokens) == EnterEntries(enter, EntriesOf(tokens))
  {
    if tokens != [] {
      var before, e := tokens[..|tokens| - 1], EntryIn(tokens[|tokens| - 1]);
      TokensAreEntries(enter, before);
      if e.Some? {
        EnterEntriesSnoc(enter, EntriesOf(before), e.value);
      } else {
        assert EntriesOf(before) + [] == EntriesOf(before);
      }
    }
  }

  /** The five kinds of message by their names. */
  predicate Names(v: string, kind: MessageType) {
    || (v == "started" && kind == Started)
    || (v == "new_data" && kind == NewData)
    || (v == "dropped" && kind == Dropped)
    || (v == "error" && kind == Error)
    || (v == "stopped" && kind == Stopped)
  }

  lemma NamesAreExact(v: string, kind: MessageType)
    ensures ParseType(v) == Some(kind) <==> Names(v, kind)
  {
    assert |"started"| == 7 && |"new_data"| == 8 && |"dropped"| == 7 && |"error"| == 5 && |"stopped"| == 7;
    assert "started"[2] == 'a' && "dropped"[0] == 'd' && "stopped"[2] == 'o';
  }

  /** The value spells a number below 2 to the 64th. */
  ghost predicate SaysNumber(v: string, n: nat) {
    n < 0x1_0000_0000_0000_0000 && Spells(v, n)
  }

  /** An entry that the parser does not reject. */
  ghost predicate Acceptable(e: Entry) {
    && (e.key == "event" ==> exists kind :: Names(e.value, kind))
    && (e.key == "packets" || e.key == "dropped" ==> exists n: nat :: SaysNumber(e.value, n))
  }

  lemma AcceptableIsParsed(e: Entry)
    ensures Acceptable(e) <==>
              && (e.key == "event" ==> ParseType(e.value).Some?)
              && (e.key == "packets" || e.key == "dropped" ==> ParseUnsigned(e.value).Some?)
  {
    forall kind ensures ParseType(e.value) == Some(kind) <==> Names(e.value, kind) {
      NamesAreExact(e.value, kind);
    }
    forall n: nat ensures ParseUnsigned(e.value) == Some(n) <==> SaysNumber(e.value, n) {
      UnsignedIsExact(e.value, n);
    }
  }

  function LastValue(es: seq<Entry>, key: string): Option<string> {
    if es == [] then None
    else if es[|es| - 1].key == key then Some(es[|es| - 1].value)
    else LastValue(es[..|es| - 1], key)
  }

  lemma LastValueSnoc(es: seq<Entry>, e: Entry, key: string)
    ensures LastValue(es + [e], key) == if e.key == key then Some(e.value) else LastValue(es, key)
  {
    assert (es + [e])[..|es|] == es;
  }

  // What the entries say about each part of a message: the last one of its key decides.

  predicate KindIs(es: seq<Entry>, d: Draft) {
    match LastValue(es, "event")
    case Some(v) => d.foundType && Names(v, d.message.kind)
    case None => !d.foundType && d.message.kind == Started
  }

  ghost predicate CountIs(es: seq<Entry>, key: string, n: nat) {
    match LastValue(es, key)
    case Some(v) => SaysNumber(v, n)
    case None => n == 0
  }

  ghost predicate CountsAre(es: seq<Entry>, m: Message) {
    CountIs(es, "packets", m.packetCount) && CountIs(es, "dropped", m.droppedCount)
  }

  function TextIn(es: seq<Entry>, key: string): string {
    match LastValue(es, key)
    case Some(v) => v
    case None => ""
  }

  predicate TextsAre(es: seq<Entry>, m: Message) {
    TextIn(es, "capture_path") == m.capturePath && TextIn(es, "message") == m.text
  }

  ghost predicate FieldsAre(es: seq<Entry>, m: Message) {
    forall k :: if Reserved(k) || LastValue(es, k).None? then k !in m.fields
                else k in m.fields && m.fields[k] == LastValue(es, k).value
  }

  ghost predicate Reflects(es: seq<Entry>, d: Draft) {
    KindIs(es, d) && CountsAre(es, d.message) && TextsAre(es, d.message) && FieldsAre(es, d.message)
  }

  lemma KeysDiffer()
    ensures "event" != "packets" && "event" != "dropped" && "event" != "capture_path" && "event" != "message"
    ensures "packets" != "dropped" && "packets" != "capture_path" && "packets" != "message"
    ensures "dropped" != "capture_path" && "dropped" != "message" && "capture_path" != "message"
  {
    assert |"event"| == 5 && |"packets"| == 7 && |"dropped"| == 7 && |"capture_path"| == 12 && |"message"| == 7;
    assert "packets"[0] == 'p' && "dropped"[0] == 'd' && "message"[0] == 'm';
  }

  lemma EnterAccepts(d: Draft, e: Entry)
    ensures Enter(d, e).Some? <==> Acceptable(e)
  {
    KeysDiffer();
    AcceptableIsParsed(e);
  }

  lemma EnterKeepsKind(es: seq<Entry>, d: Draft, e: Entry)
    requires KindIs(es, d) && Enter(d, e).Some?
    ensures KindIs(es + [e], Enter(d, e).value)
  {
    KeysDiffer();
    LastValueSnoc(es, e, "event");
    NamesAreExact(e.value, Enter(d, e).value.message.kind);
  }

  lemma EnterKeepsCounts(es: seq<Entry>, d: Draft, e: Entry)
    requires CountsAre(es, d.message) && Enter(d, e).Some?
    ensures CountsAre(es + [e], Enter(d, e).value.message)
  {
    KeysDiffer();
    LastValueSnoc(es, e, "packets");
    LastValueSnoc(es, e, "dropped");
    UnsignedIsExact(e.value, Enter(d, e).value.message.packetCount);
    UnsignedIsExact(e.value, Enter(d, e).value.message.droppedCount);
  }

  lemma EnterKeepsTexts(es: seq<Entry>, d: Draft, e: Entry)
    requires TextsAre(es, d.message) && Enter(d, e).Some?
    ensures TextsAre(es + [e], Enter(d, e).value.message)
  {
    KeysDiffer();
    LastValueSnoc(es, e, "capture_path");
    LastValueSnoc(es, e, "message");
  }

  lemma EnterFields(d: Draft, e: Entry)
    requires Enter(d, e).Some?
    ensures Enter(d, e).value.message.fields ==
            if Reserved(e.key) then d.message.fields else d.message.fields[e.key := e.value]
  {
  }

  lemma EnterKeepsFields(es: seq<Entry>, d: Draft, e: Entry)
    requires FieldsAre(es, d.message) && Enter(d, e).Some?
    ensures FieldsAre(es + [e], Enter(d, e).value.message)
  {
    EnterFields(d, e);
    FieldsOneMore(es, d.message, e, Enter(d, e).value.message);
  }

  lemma FieldsOneMore(es: seq<Entry>, m: Message, e: Entry, m': Message)
    requires FieldsAre(es, m)
    requires m'.fields == if Reserved(e.key) then m.fields else m.fields[e.key := e.value]
    ensures FieldsAre(es + [e], m')
  {
    forall k ensures LastValue(es + [e], k) == if e.key == k then Some(e.value) else LastValue(es, k) {
      LastValueSnoc(es, e, k);
    }
  }

  lemma EnterReflects(es: seq<Entry>, d: Draft, e: Entry)
    requires Reflects(es, d) && Enter(d, e).Some?
    ensures Reflects(es + [e], Enter(d, e).value)
  {
    EnterKeepsKind(es, d, e);
    EnterKeepsCounts(es, d, e);
    EnterKeepsTexts(es, d, e);
    EnterKeepsFields(es, d, e);
  }

  ghost predicate ReflectsAll(enter: EntryStep) {
    && Reflects([], NewDraft())
    && (forall d, e {:trigger enter(d, e)} :: enter(d, e).Some? <==> Acceptable(e))
    && forall es: seq<Entry>, d, e {:trigger Reflects(es, d), enter(d, e)} ::
         Reflects(es, d) && enter(d, e).Some? ==> Reflects(es + [e], enter(d, e).value)
  }

  lemma {:induction false} EntriesAreReflected(enter: EntryStep, es: seq<Entry>)
    requires ReflectsAll(enter)
    ensures EnterEntries(enter, es).Some? <==> forall e :: e in es ==> Acceptable(e)
    ensures EnterEntries(enter, es).Some? ==> Reflects(es, EnterEntries(enter, es).value)
  {
    if es != [] {
      var before, last := es[..|es| - 1], es[|es| - 1];
      EntriesAreReflected(enter, before);
      assert es == before + [last];
    }
  }

  lemma EnterReflectsAll()
    ensures ReflectsAll(Enter)
  {
    assert Reflects([], NewDraft());
    forall d, e ensures Enter(d, e).Some? <==> Acceptable(e) {
      EnterAccepts(d, e);
    }
    forall es: seq<Entry>, d, e | Reflects(es, d) && Enter(d, e).Some?
      ensures Reflects(es + [e], Enter(d, e).value)
    {
      EnterReflects(es, d, e);
    }
  }

  lemma SameCount(es: seq<Entry>, key: string, m: nat, n: nat)
    requires CountIs(es, key, m) && CountIs(es, key, n)
    ensures m == n
  {
    if LastValue(es, key).Some? {
      UnsignedIsExact(LastValue(es, key).value, m);
      UnsignedIsExact(LastValue(es, key).value, n);
    }
  }

  lemma SameKind(es: seq<Entry>, a: MessageType, b: MessageType)
    requires LastValue(es, "event").Some?
    requires Names(LastValue(es, "event").value, a) && Names(LastValue(es, "event").value, b)
    ensures a == b
  {
    NamesAreExact(LastValue(es, "event").value, a);
    NamesAreExact(LastValue(es, "event").value, b);
  }

  lemma OneReflection(es: seq<Entry>, a: Message, b: Message)
    requires Reflects(es, Draft(a, true)) && Reflects(es, Draft(b, true))
    ensures a == b
  {
    SameCount(es, "packets", a.packetCount, b.packetCount);
    SameCount(es, "dropped", a.droppedCount, b.droppedCount);
    SameKind(es, a.kind, b.kind);
    assert a.fields.Keys == b.fields.Keys by {
      forall k ensures k in a.fields <==> k in b.fields {
      }
    }
    assert a.fields == b.fields;
  }

  /** Any line at all: it is read as `m` if and only if every entry is acceptable, some entry
      is an event, and in each part `m` says what the last entry of that key says. */
  lemma ParseIsExact(line: string, m: Message)
    ensures var es := EntriesOf(Pieces(line, '\t'));
            Parse(line) == Some(m) <==>
              (forall e :: e in es ==> Acceptable(e)) && Reflects(es, Draft(m, true))
  {
    var tokens := Pieces(line, '\t');
    var es := EntriesOf(tokens);
    TokensAreEntries(Enter, tokens);
    EnterReflectsAll();
    EntriesAreReflected(Enter, es);
    var d := EnterEntries(Enter, es);
    if Reflects(es, Draft(m, true)) && d.Some? {
      assert KindIs(es, Draft(m, true)) && KindIs(es, d.value);
      OneReflection(es, m, d.value.message);
    }
  }

  // ---------------------------------------------------------------- tokens and values

  /** What escaped text means: `n` and `t` behind a backslash are a newline and a tab, any other
      character behind one is itself, and a backslash at the very end is a backslash. */
  function Meaning(s: string): string {
    if s == "" then ""
    else if s[0] != '\\' then [s[0]] + Meaning(s[1..])
    else if |s| == 1 then "\\"
    else [if s[1] == 'n' then '\n' else if s[1] == 't' then '\t' else s[1]] + Meaning(s[2..])
  }

  lemma {:induction false} UnescapeFrom(u: Unescaping, s: string)
    requires !u.escaped
    ensures var v := TakeIn(UnescapeStep, u, s);
            (if v.escaped then v.output + "\\" else v.output) == u.output + Meaning(s)
    decreases |s|
  {
    if s == "" {
      assert u.output + "" == u.output;
    } else if s[0] != '\\' {
      var v := UnescapeStep(u, s[0]);
      FirstTakenIn(u, s);
      UnescapeFrom(v, s[1..]);
      Associative(u.output, [s[0]], Meaning(s[1..]));
    } else {
      var v := UnescapeStep(u, s[0]);
      FirstTakenIn(u, s);
      if |s| > 1 {
        var w := UnescapeStep(v, s[1]);
        FirstTakenIn(v, s[1..]);
        assert s[1..][1..] == s[2..];
        UnescapeFrom(w, s[2..]);
        Associative(u.output, [w.output[|u.output|]], Meaning(s[2..]));
      } else {
        assert s[1..] == "";
      }
    }
  }

  lemma FirstTakenIn(u: Unescaping, s: string)
    requires s != ""
    ensures TakeIn(UnescapeStep, u, s) == TakeIn(UnescapeStep, UnescapeStep(u, s[0]), s[1..])
  {
    TakeInParts(UnescapeStep, u, [s[0]], s[1..]);
    assert s == [s[0]] + s[1..];
    TakeInSnoc(UnescapeStep, u, "", s[0]);
    assert "" + [s[0]] == [s[0]];
  }

  /** Every text is unescaped to what it means, whether somebody escaped it or not. */
  lemma UnescapeIsMeaning(s: string)
    ensures Unescape(s) == Meaning(s)
  {
    UnescapeFrom(Unescaping("", false), s);
    assert "" + Meaning(s) == Meaning(s);
  }

  predicate EndsIn(s: string, c: char) {
    s != "" && s[|s| - 1] == c
  }

  /** The token is this text, with the end of a line behind it or without one. */
  predicate StripsTo(token: string, t: string) {
    || token == t + "\r\n"
    || (token == t + "\n" && !EndsIn(t, '\r'))
    || token == t + "\r"
    || (token == t && !EndsIn(t, '\n') && !EndsIn(t, '\r'))
  }

  lemma StripIsExact(token: string, t: string)
    ensures Strip(token) == t <==> StripsTo(token, t)
  {
    var u := DropLast(token, '\n');
    assert token == u || token == u + "\n";
    assert u == Strip(token) || u == Strip(token) + "\r";
    assert Strip(token) + "\r" + "\n" == Strip(token) + "\r\n";
    if StripsTo(token, t) {
      DropEnding(token, t);
    }
  }

  lemma DropEnding(token: string, t: string)
    requires StripsTo(token, t)
    ensures Strip(token) == t
  {
    if token == t + "\r\n" {
      assert token == (t + "\r") + "\n";
      DropLastOfConcat(t + "\r", "\n", '\n');
      assert t + "\r" + "" == t + "\r";
      DropLastOfConcat(t, "\r", '\r');
      assert t + "" == t;
    } else if token == t + "\n" {
      DropLastOfConcat(t, "\n", '\n');
      assert t + "" == t;
    } else if token == t + "\r" {
      DropLastOfConcat(t, "\r", '\r');
      assert t + "" == t;
    }
  }

  /** A token is an entry if and only if an equals sign is in it: up to the first one is the key,
      and behind it the escaped value. */
  lemma EntryInIsExact(token: string, e: Entry)
    ensures EntryIn(token) == Some(e) <==>
              '=' !in e.key && exists raw :: StripsTo(token, e.key + "=" + raw) && e.value == Meaning(raw)
  {
    var t := Strip(token);
    StripIsExact(token, t);
    var i := IndexOf(t, '=');
    if i < |t| {
      UnescapeIsMeaning(t[i + 1..]);
      assert t == t[..i] + "=" + t[i + 1..];
    }
    if '=' !in e.key {
      forall raw | StripsTo(token, e.key + "=" + raw) && e.value == Meaning(raw) ensures EntryIn(token) == Some(e) {
        SpelledEntryIsRead(token, e, raw);
      }
    }
  }

  lemma SpelledEntryIsRead(token: string, e: Entry, raw: string)
    requires '=' !in e.key && StripsTo(token, e.key + "=" + raw) && e.value == Meaning(raw)
    ensures EntryIn(token) == Some(e)
  {
    var t := e.key + "=" + raw;
    StripIsExact(token, t);
    assert t[..|e.key|] == e.key && t[|e.key|] == '=' && t[|e.key| + 1..] == raw;
    IndexOfFirst(t, '=', |e.key|);
    UnescapeIsMeaning(raw);
  }
}
