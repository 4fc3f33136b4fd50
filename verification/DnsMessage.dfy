/** Walking over the questions and records of a DNS message (section 4.1 of RFC 1035). */
module DnsMessages {
  import opened Options
  import opened Bytes
  import opened Sequences
  import opened DnsNames

  const HEADER_LENGTH: nat := 12

  datatype Question = Question(name: string, kind: nat)
  datatype ResourceRecord = ResourceRecord(name: string, kind: nat, rdataOffset: nat, rdataLength: nat)
  datatype Message = Message(questions: seq<Question>, records: seq<ResourceRecord>)

  /** One thing read, and where the next one starts. */
  datatype Step<T> = Step(value: T, next: nat)

  function QuestionFrom(payload: seq<Byte>, offset: nat): (step: Option<Step<Question>>)
    ensures step.Some? ==> offset + 5 <= step.value.next <= |payload|
  {
    var name := ReadFrom(payload, offset, 0);
    if name.None? || name.value.end + 4 > |payload| then None
    else
      NameTakesSpace(payload, offset, 0);
      Some(Step(Question(DottedName(name.value.labels), UInt16At(payload, name.value.end)), name.value.end + 4))
  }

  /** A record's header and data both lie inside the payload, right behind its name. */
  function RecordFrom(payload: seq<Byte>, offset: nat): (step: Option<Step<ResourceRecord>>)
    ensures step.Some? ==>
              var r := step.value.value;
              offset + 11 <= r.rdataOffset && r.rdataOffset + r.rdataLength == step.value.next <= |payload|
  {
    var name := ReadFrom(payload, offset, 0);
    if name.None? || name.value.end + 10 > |payload| then None
    else
      var end := name.value.end;
      var length := UInt16At(payload, end + 8);
      if end + 10 + length > |payload| then None
      else
        NameTakesSpace(payload, offset, 0);
        var record := ResourceRecord(DottedName(name.value.labels), UInt16At(payload, end), end + 10, length);
        Some(Step(record, end + 10 + length))
  }

  lemma {:induction false} NameTakesSpace(payload: seq<Byte>, cursor: nat, jumps: nat)
    requires jumps <= MAX_JUMPS
    ensures ReadFrom(payload, cursor, jumps).Some? ==> cursor < ReadFrom(payload, cursor, jumps).value.end <= |payload|
    decreases |payload| - cursor
  {
    if cursor < |payload| && 0 < payload[cursor] < 64 && cursor + 1 + payload[cursor] <= |payload| {
      NameTakesSpace(payload, cursor + 1 + payload[cursor], jumps);
    }
  }

  method ReadResourceRecord(payload: seq<Byte>, offset: nat) returns (record: Option<ResourceRecord>, offset': nat)
    ensures match RecordFrom(payload, offset)
            case Some(step) => record == Some(step.value) && offset' == step.next
            case None => record.None?
  {
    var name;
    name, offset' := ReadDnsName(payload, offset);
    if name.None? || offset' + 10 > |payload| {
      return None, offset';
    }
    var kind := UInt16At(payload, offset');
    var length := UInt16At(payload, offset' + 8);
    offset' := offset' + 10;
    if offset' + length > |payload| {
      return None, offset';
    }
    record := Some(ResourceRecord(name.value, kind, offset', length));
    offset' := offset' + length;
  }

  /** So many things in a row, each read where the one before it ended. */
  function ManyFrom<T>(read: nat -> Option<Step<T>>, offset: nat, count: nat): Option<Step<seq<T>>>
    decreases count
  {
    if count == 0 then Some(Step([], offset))
    else
      var before := ManyFrom(read, offset, count - 1);
      if before.None? then None
      else
        var last := read(before.value.next);
        if last.None? then None else Some(Step(before.value.value + [last.value.value], last.value.next))
  }

  function QuestionReader(payload: seq<Byte>): nat -> Option<Step<Question>> {
    (offset: nat) => QuestionFrom(payload, offset)
  }

  function RecordReader(payload: seq<Byte>): nat -> Option<Step<ResourceRecord>> {
    (offset: nat) => RecordFrom(payload, offset)
  }

  function QuestionCount(payload: seq<Byte>): nat
    requires |payload| >= HEADER_LENGTH
  {
    UInt16At(payload, 4)
  }

  /** Answers, authority and additional records are walked alike. */
  function RecordCount(payload: seq<Byte>): nat
    requires |payload| >= HEADER_LENGTH
  {
    UInt16At(payload, 6) + UInt16At(payload, 8) + UInt16At(payload, 10)
  }

  function MessageIn(payload: seq<Byte>): Option<Message> {
    if |payload| < HEADER_LENGTH then None
    else
      var questions := ManyFrom(QuestionReader(payload), HEADER_LENGTH, QuestionCount(payload));
      if questions.None? then None
      else
        var records := ManyFrom(RecordReader(payload), questions.value.next, RecordCount(payload));
        if records.None? then None else Some(Message(questions.value.value, records.value.value))
  }

  lemma ManyOneMore<T>(read: nat -> Option<Step<T>>, offset: nat, so: Step<seq<T>>, count: nat, n: nat)
    requires count < n && ManyFrom(read, offset, count) == Some(so)
    ensures read(so.next).None? ==> ManyFrom(read, offset, n).None?
    ensures read(so.next).Some? ==>
              ManyFrom(read, offset, count + 1)
              == Some(Step(so.value + [read(so.next).value.value], read(so.next).value.next))
  {
    if read(so.next).None? {
      FailsForGood(read, offset, count + 1, n);
    }
  }

  lemma {:induction false} FailsForGood<T>(read: nat -> Option<Step<T>>, offset: nat, some: nat, count: nat)
    requires some <= count && ManyFrom(read, offset, some).None?
    ensures ManyFrom(read, offset, count).None?
    decreases count
  {
    if some < count {
      FailsForGood(read, offset, some, count - 1);
    }
  }

  method ReadQuestion(payload: seq<Byte>, offset: nat) returns (question: Option<Question>, offset': nat)
    ensures match QuestionFrom(payload, offset)
            case Some(step) => question == Some(step.value) && offset' == step.next
            case None => question.None?
  {
    var name;
    name, offset' := ReadDnsName(payload, offset);
    if name.None? || offset' + 4 > |payload| {
      return None, offset';
    }
    question := Some(Question(name.value, UInt16At(payload, offset')));
    offset' := offset' + 4;
  }

  method ReadQuestions(payload: seq<Byte>, start: nat, count: nat)
    returns (questions: Option<seq<Question>>, offset: nat)
    ensures match ManyFrom(QuestionReader(payload), start, count)
            case Some(step) => questions == Some(step.value) && offset == step.next
            case None => questions.None?
  {
    ghost var reader := QuestionReader(payload);
    offset := start;
    var read: seq<Question> := [];
    for i := 0 to count
      invariant ManyFrom(reader, start, i) == Some(Step(read, offset))
    {
      ManyOneMore(reader, start, Step(read, offset), i, count);
      var question;
      question, offset := ReadQuestion(payload, offset);
      if question.None? {
        return None, offset;
      }
      read := read + [question.value];
    }
    questions := Some(read);
  }

  method ReadRecords(payload: seq<Byte>, start: nat, count: nat)
    returns (records: Option<seq<ResourceRecord>>, offset: nat)
    ensures match ManyFrom(RecordReader(payload), start, count)
            case Some(step) => records == Some(step.value) && offset == step.next
            case None => records.None?
  {
    ghost var reader := RecordReader(payload);
    offset := start;
    var read: seq<ResourceRecord> := [];
    for i := 0 to count
      invariant ManyFrom(reader, start, i) == Some(Step(read, offset))
    {
      ManyOneMore(reader, start, Step(read, offset), i, count);
      var record;
      record, offset := ReadResourceRecord(payload, offset);
      if record.None? {
        return None, offset;
      }
      read := read + [record.value];
    }
    records := Some(read);
  }

  method ParseDnsPayload(payload: seq<Byte>) returns (message: Option<Message>)
    ensures message == MessageIn(payload)
  {
    if |payload| < HEADER_LENGTH {
      return None;
    }
    var questions, offset := ReadQuestions(payload, HEADER_LENGTH, QuestionCount(payload));
    if questions.None? {
      return None;
    }
    var records;
    records, offset := ReadRecords(payload, offset, RecordCount(payload));
    if records.None? {
      return None;
    }
    message := Some(Message(questions.value, records.value));
  }

  // ---------------------------------------------------------------- bounds

  lemma {:induction false} ManyTakeSpace<T>(
    read: nat -> Option<Step<T>>, each: nat, limit: nat, offset: nat, count: nat)
    requires forall o: nat :: read(o).Some? ==> o + each <= read(o).value.next <= limit
    requires ManyFrom(read, offset, count).Some? && offset <= limit
    ensures var step := ManyFrom(read, offset, count).value;
            |step.value| == count && offset + each * count <= step.next <= limit
    decreases count
  {
    if count > 0 {
      ManyTakeSpace(read, each, limit, offset, count - 1);
      assert each * count == each * (count - 1) + each;
    }
  }

  /** Whatever counts a message declares, a walk that succeeds found all of them and paid for
      each with bytes of the payload. */
  lemma WorkIsBoundedByLength(payload: seq<Byte>)
    requires MessageIn(payload).Some?
    ensures |payload| >= 12
    ensures var questions := UInt16At(payload, 4);
            var records := UInt16At(payload, 6) + UInt16At(payload, 8) + UInt16At(payload, 10);
            && |MessageIn(payload).value.questions| == questions
            && |MessageIn(payload).value.records| == records
            && 12 + 5 * questions + 11 * records <= |payload|
  {
    var questions, records := QuestionReader(payload), RecordReader(payload);
    ManyTakeSpace(questions, 5, |payload|, HEADER_LENGTH, QuestionCount(payload));
    var next := ManyFrom(questions, HEADER_LENGTH, QuestionCount(payload)).value.next;
    ManyTakeSpace(records, 11, |payload|, next, RecordCount(payload));
  }

  // ---------------------------------------------------------------- writing

  /** What a sender puts into a question or a record besides the name. */
  datatype QuestionOut = QuestionOut(name: NameOut, kind: nat, class_: nat)
  datatype RecordOut = RecordOut(name: NameOut, kind: nat, class_: nat, ttl: seq<Byte>, rdata: seq<Byte>)

  predicate Sendable(q: QuestionOut) {
    CanBeWritten(q.name) && q.kind < 0x1_0000 && q.class_ < 0x1_0000
  }

  predicate SendableRecord(r: RecordOut) {
    CanBeWritten(r.name) && r.kind < 0x1_0000 && r.class_ < 0x1_0000 && |r.ttl| == 4 && |r.rdata| < 0x1_0000
  }

  function WriteQuestion(q: QuestionOut): seq<Byte>
    requires Sendable(q)
  {
    WriteName(q.name) + (UInt16Bytes(q.kind) + UInt16Bytes(q.class_))
  }

  function WriteRecord(r: RecordOut): seq<Byte>
    requires SendableRecord(r)
  {
    WriteName(r.name) + (RecordHeader(r) + r.rdata)
  }

  function RecordHeader(r: RecordOut): seq<Byte>
    requires SendableRecord(r)
  {
    UInt16Bytes(r.kind) + (UInt16Bytes(r.class_) + (r.ttl + UInt16Bytes(|r.rdata|)))
  }

  lemma UInt16RoundTrip(payload: seq<Byte>, offset: nat, n: nat)
    requires n < 0x1_0000 && At(payload, offset, UInt16Bytes(n))
    ensures UInt16At(payload, offset) == n
  {
    assert payload[offset] == payload[offset..offset + 2][0];
    assert payload[offset + 1] == payload[offset..offset + 2][1];
  }

  lemma QuestionRoundTrip(payload: seq<Byte>, offset: nat, q: QuestionOut)
    requires Sendable(q) && Resolves(payload, q.name) && At(payload, offset, WriteQuestion(q))
    ensures QuestionFrom(payload, offset)
            == Some(Step(Question(NameText(payload, q.name), q.kind), offset + |WriteQuestion(q)|))
  {
    var rest := UInt16Bytes(q.kind) + UInt16Bytes(q.class_);
    NameAtStart(payload, offset, q.name, rest);
    QuestionBehindName(payload, offset, Name(LabelsOf(payload, q.name), offset + |WriteName(q.name)|), q);
  }

  lemma QuestionBehindName(payload: seq<Byte>, offset: nat, name: Name, q: QuestionOut)
    requires Sendable(q) && ReadFrom(payload, offset, 0) == Some(name)
    requires At(payload, name.end, UInt16Bytes(q.kind) + UInt16Bytes(q.class_))
    ensures QuestionFrom(payload, offset) == Some(Step(Question(DottedName(name.labels), q.kind), name.end + 4))
  {
    AtParts(payload, name.end, UInt16Bytes(q.kind), UInt16Bytes(q.class_));
    UInt16RoundTrip(payload, name.end, q.kind);
  }

  lemma RecordHeaderRoundTrip(payload: seq<Byte>, at: nat, r: RecordOut)
    requires SendableRecord(r) && At(payload, at, RecordHeader(r))
    ensures |RecordHeader(r)| == 10
    ensures UInt16At(payload, at) == r.kind && UInt16At(payload, at + 8) == |r.rdata|
  {
    var tail := r.ttl + UInt16Bytes(|r.rdata|);
    AtParts(payload, at, UInt16Bytes(r.kind), UInt16Bytes(r.class_) + tail);
    AtParts(payload, at + 2, UInt16Bytes(r.class_), tail);
    AtParts(payload, at + 4, r.ttl, UInt16Bytes(|r.rdata|));
    UInt16RoundTrip(payload, at, r.kind);
    UInt16RoundTrip(payload, at + 8, |r.rdata|);
  }

  /** Of the bytes from `offset` to `end` the reader makes this record, with its data in place. */
  predicate RecordIsRead(payload: seq<Byte>, offset: nat, end: nat, name: string, r: RecordOut) {
    && |r.rdata| <= end <= |payload|
    && RecordFrom(payload, offset) == Some(Step(ResourceRecord(name, r.kind, end - |r.rdata|, |r.rdata|), end))
    && payload[end - |r.rdata|..end] == r.rdata
  }

  /** A record written anywhere in a payload is read back, with its data in place. */
  lemma RecordRoundTrip(payload: seq<Byte>, offset: nat, r: RecordOut)
    requires SendableRecord(r) && Resolves(payload, r.name) && At(payload, offset, WriteRecord(r))
    ensures RecordIsRead(payload, offset, offset + |WriteRecord(r)|, NameText(payload, r.name), r)
  {
    var name := Name(LabelsOf(payload, r.name), offset + |WriteName(r.name)|);
    NameAtStart(payload, offset, r.name, RecordHeader(r) + r.rdata);
    RecordWithName(payload, offset, name, r);
  }

  lemma RecordWithName(payload: seq<Byte>, offset: nat, name: Name, r: RecordOut)
    requires SendableRecord(r) && ReadFrom(payload, offset, 0) == Some(name)
    requires name.end == offset + |WriteName(r.name)| && At(payload, name.end, RecordHeader(r) + r.rdata)
    ensures RecordIsRead(payload, offset, offset + |WriteRecord(r)|, DottedName(name.labels), r)
  {
    RecordBehindName(payload, offset, name, r);
    assert |WriteRecord(r)| == |WriteName(r.name)| + |RecordHeader(r)| + |r.rdata|;
  }

  /** A name and what follows it. */
  lemma NameAtStart(payload: seq<Byte>, offset: nat, n: NameOut, rest: seq<Byte>)
    requires CanBeWritten(n) && Resolves(payload, n) && At(payload, offset, WriteName(n) + rest)
    ensures var end := offset + |WriteName(n)|;
            ReadFrom(payload, offset, 0) == Some(Name(LabelsOf(payload, n), end)) && At(payload, end, rest)
  {
    AtParts(payload, offset, WriteName(n), rest);
    NameRoundTrip(payload, offset, n);
  }

  lemma RecordBehindName(payload: seq<Byte>, offset: nat, name: Name, r: RecordOut)
    requires SendableRecord(r) && ReadFrom(payload, offset, 0) == Some(name)
    requires At(payload, name.end, RecordHeader(r) + r.rdata)
    ensures RecordIsRead(payload, offset, name.end + |RecordHeader(r)| + |r.rdata|, DottedName(name.labels), r)
  {
    AtParts(payload, name.end, RecordHeader(r), r.rdata);
    RecordHeaderRoundTrip(payload, name.end, r);
    RecordFields(payload, offset, name, r.kind, |r.rdata|);
  }

  lemma RecordFields(payload: seq<Byte>, offset: nat, name: Name, kind: nat, length: nat)
    requires ReadFrom(payload, offset, 0) == Some(name) && name.end + 10 + length <= |payload|
    requires UInt16At(payload, name.end) == kind && UInt16At(payload, name.end + 8) == length
    ensures RecordFrom(payload, offset)
            == Some(Step(ResourceRecord(DottedName(name.labels), kind, name.end + 10, length), name.end + 10 + length))
  {
  }

  ghost predicate ReadsBack<T>(
    payload: seq<Byte>, read: nat -> Option<Step<T>>, part: seq<Byte>, isSent: T -> bool)
  {
    forall o: nat :: At(payload, o, part) ==>
      read(o).Some? && read(o).value.next == o + |part| && isSent(read(o).value.value)
  }

  /** The first `n` parts were read, each as what was sent, up to where they end. */
  ghost predicate ReadUpTo<T>(
    step: Option<Step<seq<T>>>, parts: seq<seq<Byte>>, isSent: seq<T -> bool>, offset: nat, n: nat)
    requires n <= |parts| == |isSent|
  {
    && step.Some? && step.value.next == offset + |Flat(parts[..n])| && |step.value.value| == n
    && forall i :: 0 <= i < n ==> isSent[i](step.value.value[i])
  }

  lemma ReadOneMore<T>(
    before: Step<seq<T>>, one: Step<T>, parts: seq<seq<Byte>>, isSent: seq<T -> bool>, offset: nat, n: nat)
    requires n < |parts| == |isSent| && ReadUpTo(Some(before), parts, isSent, offset, n)
    requires one.next == before.next + |parts[n]| && isSent[n](one.value)
    requires |Flat(parts[..n + 1])| == |Flat(parts[..n])| + |parts[n]|
    ensures ReadUpTo(Some(Step(before.value + [one.value], one.next)), parts, isSent, offset, n + 1)
  {
  }

  /** If each part reads back wherever it stands, the parts in a row read back in a row. */
  lemma {:induction false} ManyRoundTrip<T>(
    payload: seq<Byte>, read: nat -> Option<Step<T>>, parts: seq<seq<Byte>>, isSent: seq<T -> bool>,
    offset: nat, n: nat)
    requires n <= |parts| == |isSent| && At(payload, offset, Flat(parts))
    requires forall i :: 0 <= i < n ==> ReadsBack(payload, read, parts[i], isSent[i])
    ensures ReadUpTo(ManyFrom(read, offset, n), parts, isSent, offset, n)
    decreases n
  {
    if n > 0 {
      ManyRoundTrip(payload, read, parts, isSent, offset, n - 1);
      PartAt(payload, offset, parts, n - 1);
      var before := ManyFrom(read, offset, n - 1).value;
      OneReadsBack(payload, read, parts[n - 1], isSent[n - 1], before.next);
      ReadOneMore(before, read(before.next).value, parts, isSent, offset, n - 1);
    } else {
      assert parts[..0] == [];
    }
  }

  lemma OneReadsBack<T>(
    payload: seq<Byte>, read: nat -> Option<Step<T>>, part: seq<Byte>, isSent: T -> bool, offset: nat)
    requires ReadsBack(payload, read, part, isSent) && At(payload, offset, part)
    ensures read(offset).Some? && read(offset).value.next == offset + |part| && isSent(read(offset).value.value)
  {
  }

  lemma PartAt(payload: seq<Byte>, offset: nat, parts: seq<seq<Byte>>, i: nat)
    requires i < |parts| && At(payload, offset, Flat(parts))
    ensures At(payload, offset + |Flat(parts[..i])|, parts[i])
    ensures |Flat(parts[..i + 1])| == |Flat(parts[..i])| + |parts[i]|
  {
    assert parts == parts[..i + 1] + parts[i + 1..] && parts[..i + 1] == parts[..i] + [parts[i]];
    FlatConcat(parts[..i + 1], parts[i + 1..]);
    FlatAppend(parts[..i], parts[i]);
    AtParts(payload, offset, Flat(parts[..i + 1]), Flat(parts[i + 1..]));
    AtParts(payload, offset, Flat(parts[..i]), parts[i]);
  }

  predicate SameRecord(payload: seq<Byte>, read: ResourceRecord, name: string, sent: RecordOut) {
    && read.name == name && read.kind == sent.kind
    && read.rdataOffset + read.rdataLength <= |payload|
    && payload[read.rdataOffset..read.rdataOffset + read.rdataLength] == sent.rdata
  }

  function WriteQuestions(qs: seq<QuestionOut>): seq<seq<Byte>>
    requires forall i :: 0 <= i < |qs| ==> Sendable(qs[i])
  {
    seq(|qs|, i requires 0 <= i < |qs| => WriteQuestion(qs[i]))
  }

  function WriteRecords(rs: seq<RecordOut>): seq<seq<Byte>>
    requires forall i :: 0 <= i < |rs| ==> SendableRecord(rs[i])
  {
    seq(|rs|, i requires 0 <= i < |rs| => WriteRecord(rs[i]))
  }

  function IsQuestion(name: string, kind: nat): Question -> bool {
    (q: Question) => q == Question(name, kind)
  }

  function IsRecord(payload: seq<Byte>, name: string, sent: RecordOut): ResourceRecord -> bool {
    (r: ResourceRecord) => SameRecord(payload, r, name, sent)
  }

  lemma QuestionReadsBack(payload: seq<Byte>, q: QuestionOut)
    requires Sendable(q) && Resolves(payload, q.name)
    ensures ReadsBack(payload, QuestionReader(payload), WriteQuestion(q), IsQuestion(NameText(payload, q.name), q.kind))
  {
    forall o: nat | At(payload, o, WriteQuestion(q))
      ensures QuestionFrom(payload, o)
              == Some(Step(Question(NameText(payload, q.name), q.kind), o + |WriteQuestion(q)|))
    {
      QuestionRoundTrip(payload, o, q);
    }
  }

  lemma RecordReadsBack(payload: seq<Byte>, r: RecordOut)
    requires SendableRecord(r) && Resolves(payload, r.name)
    ensures ReadsBack(payload, RecordReader(payload), WriteRecord(r), IsRecord(payload, NameText(payload, r.name), r))
  {
    forall o: nat | At(payload, o, WriteRecord(r))
      ensures var step := RecordFrom(payload, o);
              && step.Some? && step.value.next == o + |WriteRecord(r)|
              && SameRecord(payload, step.value.value, NameText(payload, r.name), r)
    {
      RecordRoundTrip(payload, o, r);
    }
  }

  lemma QuestionsRoundTrip(payload: seq<Byte>, offset: nat, qs: seq<QuestionOut>)
    requires forall i :: 0 <= i < |qs| ==> Sendable(qs[i]) && Resolves(payload, qs[i].name)
    requires At(payload, offset, Flat(WriteQuestions(qs)))
    ensures var step := ManyFrom(QuestionReader(payload), offset, |qs|);
            && step.Some? && step.value.next == offset + |Flat(WriteQuestions(qs))| && |step.value.value| == |qs|
            && forall i :: 0 <= i < |qs| ==> step.value.value[i] == Question(NameText(payload, qs[i].name), qs[i].kind)
  {
    var parts := WriteQuestions(qs);
    var isSent := seq(|qs|, i requires 0 <= i < |qs| => IsQuestion(NameText(payload, qs[i].name), qs[i].kind));
    forall i | 0 <= i < |qs| ensures ReadsBack(payload, QuestionReader(payload), parts[i], isSent[i]) {
      QuestionReadsBack(payload, qs[i]);
    }
    ManyRoundTrip(payload, QuestionReader(payload), parts, isSent, offset, |qs|);
    assert parts[..|qs|] == parts;
  }

  lemma RecordsRoundTrip(payload: seq<Byte>, offset: nat, rs: seq<RecordOut>)
    requires forall i :: 0 <= i < |rs| ==> SendableRecord(rs[i]) && Resolves(payload, rs[i].name)
    requires At(payload, offset, Flat(WriteRecords(rs)))
    ensures var step := ManyFrom(RecordReader(payload), offset, |rs|);
            && step.Some? && |step.value.value| == |rs|
            && forall i :: 0 <= i < |rs| ==>
                 SameRecord(payload, step.value.value[i], NameText(payload, rs[i].name), rs[i])
  {
    var parts := WriteRecords(rs);
    var isSent := seq(|rs|, i requires 0 <= i < |rs| => IsRecord(payload, NameText(payload, rs[i].name), rs[i]));
    forall i | 0 <= i < |rs| ensures ReadsBack(payload, RecordReader(payload), parts[i], isSent[i]) {
      RecordReadsBack(payload, rs[i]);
    }
    ManyRoundTrip(payload, RecordReader(payload), parts, isSent, offset, |rs|);
  }

  /** Questions and records in a row are read back, if the header counts them. */
  lemma BodyRoundTrip(payload: seq<Byte>, qs: seq<QuestionOut>, rs: seq<RecordOut>)
    requires |payload| >= HEADER_LENGTH && QuestionCount(payload) == |qs| && RecordCount(payload) == |rs|
    requires forall i :: 0 <= i < |qs| ==> Sendable(qs[i]) && Resolves(payload, qs[i].name)
    requires AllSendable(rs) && AllResolve(payload, rs)
    requires At(payload, HEADER_LENGTH, Flat(WriteQuestions(qs)) + Flat(WriteRecords(rs)))
    ensures SameMessage(payload, MessageIn(payload), qs, rs)
  {
    AtParts(payload, HEADER_LENGTH, Flat(WriteQuestions(qs)), Flat(WriteRecords(rs)));
    QuestionsRoundTrip(payload, HEADER_LENGTH, qs);
    RecordsRoundTrip(payload, HEADER_LENGTH + |Flat(WriteQuestions(qs))|, rs);
  }

  /** The message was read, with just these questions and records. */
  ghost predicate SameMessage(payload: seq<Byte>, message: Option<Message>, qs: seq<QuestionOut>, rs: seq<RecordOut>)
    requires forall i :: 0 <= i < |qs| ==> Resolves(payload, qs[i].name)
    requires AllResolve(payload, rs)
  {
    && message.Some?
    && |message.value.questions| == |qs| && |message.value.records| == |rs|
    && (forall i :: 0 <= i < |qs| ==>
          message.value.questions[i] == Question(NameText(payload, qs[i].name), qs[i].kind))
    && (forall i :: 0 <= i < |rs| ==>
          SameRecord(payload, message.value.records[i], NameText(payload, rs[i].name), rs[i]))
  }

  /** The header of section 4.1.1 of RFC 1035; `front` is the identifier and the flags. */
  function WriteHeader(front: seq<Byte>, qs: nat, answers: nat, authority: nat, additional: nat): seq<Byte>
    requires qs < 0x1_0000 && answers < 0x1_0000 && authority < 0x1_0000 && additional < 0x1_0000
  {
    front + (UInt16Bytes(qs) + (UInt16Bytes(answers) + (UInt16Bytes(authority) + UInt16Bytes(additional))))
  }

  lemma HeaderRoundTrip(
    payload: seq<Byte>, front: seq<Byte>, qs: nat, answers: nat, authority: nat, additional: nat)
    requires qs < 0x1_0000 && answers < 0x1_0000 && authority < 0x1_0000 && additional < 0x1_0000
    requires |front| == 4 && At(payload, 0, WriteHeader(front, qs, answers, authority, additional))
    ensures |payload| >= HEADER_LENGTH
    ensures QuestionCount(payload) == qs && RecordCount(payload) == answers + authority + additional
  {
    var last := UInt16Bytes(authority) + UInt16Bytes(additional);
    AtParts(payload, 0, front, UInt16Bytes(qs) + (UInt16Bytes(answers) + last));
    AtParts(payload, 4, UInt16Bytes(qs), UInt16Bytes(answers) + last);
    AtParts(payload, 6, UInt16Bytes(answers), last);
    AtParts(payload, 8, UInt16Bytes(authority), UInt16Bytes(additional));
    UInt16RoundTrip(payload, 4, qs);
    UInt16RoundTrip(payload, 6, answers);
    UInt16RoundTrip(payload, 8, authority);
    UInt16RoundTrip(payload, 10, additional);
  }

  predicate AllSendable(rs: seq<RecordOut>) {
    forall i :: 0 <= i < |rs| ==> SendableRecord(rs[i])
  }

  ghost predicate AllResolve(payload: seq<Byte>, rs: seq<RecordOut>) {
    forall i :: 0 <= i < |rs| ==> Resolves(payload, rs[i].name)
  }

  /** A whole message as a sender has it; `front` is the identifier and the flags. */
  datatype MessageOut = MessageOut(
    front: seq<Byte>, questions: seq<QuestionOut>, answers: seq<RecordOut>, authority: seq<RecordOut>,
    additional: seq<RecordOut>)
  {
    /** The records in the order in which they are sent. */
    function Records(): seq<RecordOut> {
      answers + authority + additional
    }

    predicate CanBeSent() {
      && |front| == 4 && |questions| < 0x1_0000
      && |answers| < 0x1_0000 && |authority| < 0x1_0000 && |additional| < 0x1_0000
      && (forall i :: 0 <= i < |questions| ==> Sendable(questions[i]))
      && AllSendable(answers) && AllSendable(authority) && AllSendable(additional)
    }

    /** The header with the four numbers, the questions, and the three sections of records. */
    function Written(): seq<Byte>
      requires CanBeSent()
    {
      WriteHeader(front, |questions|, |answers|, |authority|, |additional|)
      + (Flat(WriteQuestions(questions))
         + (Flat(WriteRecords(answers)) + Flat(WriteRecords(authority)) + Flat(WriteRecords(additional))))
    }

    /** Every compressed name points to one that the message spells. */
    ghost predicate NamesResolve(payload: seq<Byte>) {
      && (forall i :: 0 <= i < |questions| ==> Resolves(payload, questions[i].name))
      && AllResolve(payload, answers) && AllResolve(payload, authority) && AllResolve(payload, additional)
    }
  }

  lemma WriteRecordsConcat(a: seq<RecordOut>, b: seq<RecordOut>)
    requires AllSendable(a) && AllSendable(b)
    ensures AllSendable(a + b) && Flat(WriteRecords(a + b)) == Flat(WriteRecords(a)) + Flat(WriteRecords(b))
  {
    assert WriteRecords(a + b) == WriteRecords(a) + WriteRecords(b);
    FlatConcat(WriteRecords(a), WriteRecords(b));
  }

  lemma AllResolveConcat(payload: seq<Byte>, a: seq<RecordOut>, b: seq<RecordOut>)
    requires AllResolve(payload, a) && AllResolve(payload, b)
    ensures AllResolve(payload, a + b)
  {
  }

  lemma SectionsInARow(m: MessageOut)
    requires m.CanBeSent()
    ensures AllSendable(m.Records())
    ensures m.Written() == WriteHeader(m.front, |m.questions|, |m.answers|, |m.authority|, |m.additional|)
                           + (Flat(WriteQuestions(m.questions)) + Flat(WriteRecords(m.Records())))
  {
    WriteRecordsConcat(m.answers, m.authority);
    WriteRecordsConcat(m.answers + m.authority, m.additional);
  }

  lemma HeaderAndBody(payload: seq<Byte>, m: MessageOut)
    requires m.CanBeSent() && At(payload, 0, m.Written())
    ensures AllSendable(m.Records()) && |payload| >= HEADER_LENGTH
    ensures QuestionCount(payload) == |m.questions| && RecordCount(payload) == |m.Records()|
    ensures At(payload, HEADER_LENGTH, Flat(WriteQuestions(m.questions)) + Flat(WriteRecords(m.Records())))
  {
    var header := WriteHeader(m.front, |m.questions|, |m.answers|, |m.authority|, |m.additional|);
    SectionsInARow(m);
    AtParts(payload, 0, header, Flat(WriteQuestions(m.questions)) + Flat(WriteRecords(m.Records())));
    HeaderRoundTrip(payload, m.front, |m.questions|, |m.answers|, |m.authority|, |m.additional|);
  }

  /** A message written at the start of a payload is read back question by question and record
      by record, the three sections in order, names in full or compressed, whatever bytes
      follow it. */
  lemma MessageRoundTrip(payload: seq<Byte>, m: MessageOut)
    requires m.CanBeSent() && m.NamesResolve(payload) && At(payload, 0, m.Written())
    ensures AllResolve(payload, m.Records())
    ensures SameMessage(payload, MessageIn(payload), m.questions, m.Records())
  {
    AllResolveConcat(payload, m.answers, m.authority);
    AllResolveConcat(payload, m.answers + m.authority, m.additional);
    HeaderAndBody(payload, m);
    BodyRoundTrip(payload, m.questions, m.Records());
  }

  // ---------------------------------------------------------------- TXT data

  /** The character strings of a TXT record's data, up to one that overruns the data. */
  function TextsIn(rdata: seq<Byte>): seq<seq<Byte>> {
    if rdata == [] || 1 + rdata[0] > |rdata| then []
    else [rdata[1..1 + rdata[0]]] + TextsIn(rdata[1 + rdata[0]..])
  }

  /** The same for data that stands in a message. */
  function TextsFrom(payload: seq<Byte>, cursor: nat, end: nat): seq<seq<Byte>>
    requires cursor <= end <= |payload|
    decreases end - cursor
  {
    if cursor == end || cursor + 1 + payload[cursor] > end then []
    else [payload[cursor + 1..cursor + 1 + payload[cursor]]] + TextsFrom(payload, cursor + 1 + payload[cursor], end)
  }

  lemma {:induction false} TextsStandInPayload(payload: seq<Byte>, cursor: nat, end: nat)
    requires cursor <= end <= |payload|
    ensures TextsFrom(payload, cursor, end) == TextsIn(payload[cursor..end])
    decreases end - cursor
  {
    if cursor < end {
      var next := cursor + 1 + payload[cursor];
      if next <= end {
        TextsStandInPayload(payload, next, end);
        SliceOfSlice(payload, cursor, end, 1, next - cursor);
        SliceOfSlice(payload, cursor, end, next - cursor, end - cursor);
        assert payload[cursor..end][next - cursor..] == payload[cursor..end][next - cursor..end - cursor];
      }
    }
  }

  method ReadTexts(payload: seq<Byte>, record: ResourceRecord) returns (texts: seq<seq<Byte>>)
    requires record.rdataOffset + record.rdataLength <= |payload|
    ensures texts == TextsIn(payload[record.rdataOffset..record.rdataOffset + record.rdataLength])
  {
    var cursor: nat, end := record.rdataOffset, record.rdataOffset + record.rdataLength;
    texts := [];
    ghost var all := TextsFrom(payload, cursor, end);
    TextsStandInPayload(payload, cursor, end);
    assert [] + all == all;
    while cursor < end
      invariant cursor <= end
      invariant texts + TextsFrom(payload, cursor, end) == all
    {
      var length := payload[cursor];
      cursor := cursor + 1;
      if cursor + length > end {
        assert texts + [] == texts;
        return;
      }
      var text := payload[cursor..cursor + length];
      Associative(texts, [text], TextsFrom(payload, cursor + length, end));
      texts := texts + [text];
      cursor := cursor + length;
    }
    assert texts + [] == texts;
  }

  function WriteTexts(texts: seq<seq<Byte>>): seq<Byte>
    requires forall i :: 0 <= i < |texts| ==> |texts[i]| < 256
  {
    if texts == [] then [] else [|texts[0]|] + texts[0] + WriteTexts(texts[1..])
  }

  /** The texts found are exactly those that the data is made of, but for a last one that is
      cut short by the end of the data. */
  lemma {:induction false} TextsAreExact(rdata: seq<Byte>) returns (rest: seq<Byte>)
    ensures forall i :: 0 <= i < |TextsIn(rdata)| ==> |TextsIn(rdata)[i]| < 256
    ensures rdata == WriteTexts(TextsIn(rdata)) + rest
    ensures rest == [] || 1 + rest[0] > |rest|
  {
    if rdata == [] || 1 + rdata[0] > |rdata| {
      rest := rdata;
    } else {
      var next: nat := 1 + rdata[0] as int;
      var text, more := rdata[1..next], rdata[next..];
      rest := TextsAreExact(more);
      assert TextsIn(rdata) == [text] + TextsIn(more);
      WriteTextFirst(text, TextsIn(more));
      SplitText(rdata, next, WriteTexts(TextsIn(more)), rest);
    }
  }

  lemma WriteTextFirst(text: seq<Byte>, more: seq<seq<Byte>>)
    requires |text| < 256 && forall i :: 0 <= i < |more| ==> |more[i]| < 256
    ensures forall i :: 0 <= i < |[text] + more| ==> |([text] + more)[i]| < 256
    ensures WriteTexts([text] + more) == [|text|] + text + WriteTexts(more)
  {
    assert ([text] + more)[1..] == more;
  }

  lemma SplitText(rdata: seq<Byte>, next: nat, written: seq<Byte>, rest: seq<Byte>)
    requires 1 <= next <= |rdata| && rdata[next..] == written + rest
    ensures rdata == [rdata[0]] + rdata[1..next] + written + rest
  {
  }

  lemma FirstWrittenText(first: seq<Byte>, more: seq<Byte>)
    requires |first| < 256
    ensures TextsIn([|first|] + first + more) == [first] + TextsIn(more)
  {
    var all := [|first|] + first + more;
    assert all[0] == |first| && all[1..1 + |first|] == first && all[1 + |first|..] == more;
  }

  lemma {:induction false} TextsRoundTrip(texts: seq<seq<Byte>>, rest: seq<Byte>)
    requires forall i :: 0 <= i < |texts| ==> |texts[i]| < 256
    requires rest == [] || 1 + rest[0] > |rest|
    ensures TextsIn(WriteTexts(texts) + rest) == texts
  {
    if texts == [] {
      assert [] + rest == rest;
    } else {
      var first, written := texts[0], WriteTexts(texts[1..]);
      TextsRoundTrip(texts[1..], rest);
      Associative([|first|] + first, written, rest);
      FirstWrittenText(first, written + rest);
    }
  }
}
