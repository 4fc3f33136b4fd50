/** Reading domain names with compression pointers (sections 3.1 and 4.1.4 of RFC 1035). */
module DnsNames {
  import opened Options
  import opened Sequences
  import opened Bytes
  import opened Text

  type Label = seq<Byte>

  const MAX_JUMPS: nat := 16

  /** A name as labels, and where the bytes after it start. */
  datatype Name = Name(labels: seq<Label>, end: nat)

  /** The 14 low bits of the two bytes at `at`. */
  function PointerAt(payload: seq<Byte>, at: nat): nat
    requires at + 1 < |payload| && payload[at] >= 192
  {
    (payload[at] as int - 192) * 256 + payload[at + 1] as int
  }

  /** What stands at a position: the end of a name, a label and where the next element is, a
      pointer into the payload, or something that no name holds. */
  datatype Element = EndOfName | LabelText(text: Label, next: nat) | Pointer(target: nat) | Malformed

  function ElementAt(payload: seq<Byte>, cursor: nat): (e: Element)
    requires cursor < |payload|
    ensures e.LabelText? ==> cursor < e.next <= |payload|
  {
    var length := payload[cursor];
    if length == 0 then EndOfName
    else if length >= 192 then
      if cursor + 1 >= |payload| || PointerAt(payload, cursor) >= |payload| then Malformed
      else Pointer(PointerAt(payload, cursor))
    else if length >= 64 || cursor + 1 + length > |payload| then Malformed
    else LabelText(payload[cursor + 1..cursor + 1 + length], cursor + 1 + length)
  }

  /** What the decompression loop computes from a cursor, with some jumps already made. */
  function ReadFrom(payload: seq<Byte>, cursor: nat, jumps: nat): Option<Name>
    requires jumps <= MAX_JUMPS
    decreases MAX_JUMPS - jumps, |payload| - cursor
  {
    if cursor >= |payload| then None
    else
      match ElementAt(payload, cursor)
      case EndOfName => Some(Name([], cursor + 1))
      case LabelText(text, next) =>
        var rest := ReadFrom(payload, next, jumps);
        if rest.None? then None else Some(Name([text] + rest.value.labels, rest.value.end))
      case Pointer(target) =>
        if jumps == MAX_JUMPS then None
        else
          var rest := ReadFrom(payload, target, jumps + 1);
          if rest.None? then None else Some(Name(rest.value.labels, cursor + 2))
      case Malformed => None
  }

  function LabelTexts(labels: seq<Label>): seq<string> {
    seq(|labels|, i requires 0 <= i < |labels| => AsText(labels[i]))
  }

  /** The text that the source makes of a name. */
  function DottedName(labels: seq<Label>): string {
    if labels == [] then "." else Join(LabelTexts(labels), '.')
  }

  method ReadElement(payload: seq<Byte>, cursor: nat) returns (e: Element)
    requires cursor < |payload|
    ensures e == ElementAt(payload, cursor)
  {
    var length := payload[cursor];
    if length == 0 {
      return EndOfName;
    }
    if length / 64 == 3 {
      if cursor + 1 >= |payload| {
        return Malformed;
      }
      var pointer := PointerAt(payload, cursor);
      if pointer >= |payload| {
        return Malformed;
      }
      return Pointer(pointer);
    }
    if length / 64 != 0 {
      return Malformed;
    }
    var start: nat := cursor + 1;
    if start + length > |payload| {
      return Malformed;
    }
    e := LabelText(payload[start..start + length], start + length);
  }

  /** The loop of the source. On failure the offset may have moved, but only forward and
      never beyond the payload. */
  method ReadDnsName(payload: seq<Byte>, offset: nat) returns (name: Option<string>, offset': nat)
    ensures match ReadFrom(payload, offset, 0)
            case Some(read) => name == Some(DottedName(read.labels)) && offset' == read.end
            case None => name.None?
    ensures offset <= offset' && (offset' == offset || offset' <= |payload|)
  {
    var labels: seq<Label>;
    var ok;
    ok, labels, offset' := CollectLabels(payload, offset);
    name := if ok then Some(DottedName(labels)) else None;
  }

  method CollectLabels(payload: seq<Byte>, offset: nat) returns (ok: bool, labels: seq<Label>, offset': nat)
    ensures match ReadFrom(payload, offset, 0)
            case Some(read) => ok && labels == read.labels && offset' == read.end
            case None => !ok
    ensures offset <= offset' && (offset' == offset || offset' <= |payload|)
  {
    labels := [];
    var cursor: nat, jumped, jumps: nat := offset, false, 0;
    offset' := offset;
    ghost var whole := ReadFrom(payload, offset, 0);
    assert whole.Some? ==> [] + whole.value.labels == whole.value.labels;
    while cursor < |payload|
      invariant jumps <= MAX_JUMPS && (jumped <==> jumps > 0)
      invariant !jumped ==> offset' == cursor
      invariant offset <= offset' && (offset' == offset || offset' <= |payload|)
      invariant var rest := ReadFrom(payload, cursor, jumps);
                match rest
                case None => whole.None?
                case Some(read) => whole == Some(Name(labels + read.labels, if jumped then offset' else read.end))
      decreases MAX_JUMPS - jumps, |payload| - cursor
    {
      var e := ReadElement(payload, cursor);
      match e
      case EndOfName =>
        if !jumped {
          offset' := cursor + 1;
        }
        assert labels + [] == labels;
        return true, labels, offset';
      case Pointer(target) =>
        if jumps + 1 > MAX_JUMPS {
          return false, labels, offset';
        }
        jumps := jumps + 1;
        if !jumped {
          PointerIsTwoBytes(payload, cursor);
          offset' := cursor + 2;
          jumped := true;
        }
        cursor := target;
      case LabelText(text, next) =>
        ghost var read := ReadFrom(payload, next, jumps);
        if read.Some? {
          Associative(labels, [text], read.value.labels);
        }
        labels := labels + [text];
        cursor := next;
        if !jumped {
          offset' := cursor;
        }
      case Malformed =>
        return false, labels, offset';
    }
    ok := false;
  }

  lemma PointerIsTwoBytes(payload: seq<Byte>, cursor: nat)
    requires cursor < |payload| && ElementAt(payload, cursor).Pointer?
    ensures cursor + 2 <= |payload|
  {
  }

  lemma AsTextHasDot(bytes: seq<Byte>)
    ensures '.' in AsText(bytes) <==> ('.' as int) in bytes
  {
    var text := AsText(bytes);
    if '.' in text {
      var i :| 0 <= i < |text| && text[i] == '.';
      assert bytes[i] == '.' as int;
    }
    if ('.' as int) in bytes {
      var i :| 0 <= i < |bytes| && bytes[i] == '.' as int;
      assert text[i] == '.';
    }
  }

  predicate HasDot(labels: seq<Label>) {
    exists i :: 0 <= i < |labels| && ('.' as int) in labels[i]
  }

  /** The text of a name shows its labels exactly when none of them holds a dot. */
  lemma DottedNameShowsLabels(labels: seq<Label>)
    requires labels != [] && forall i :: 0 <= i < |labels| ==> labels[i] != []
    ensures Pieces(DottedName(labels), '.') == LabelTexts(labels) <==> !HasDot(labels)
  {
    var texts := LabelTexts(labels);
    forall i | 0 <= i < |labels| ensures texts[i] != "" && ('.' in texts[i] <==> ('.' as int) in labels[i]) {
      AsTextHasDot(labels[i]);
    }
    if !HasDot(labels) {
      JoinedPieces(texts, '.');
    }
    PiecesHaveNoSeparator(DottedName(labels), '.');
  }

  /** The text of the root is a single dot, and so is that of one other name. */
  lemma RootIsDot(labels: seq<Label>)
    requires forall i :: 0 <= i < |labels| ==> labels[i] != []
    ensures DottedName(labels) == "." <==> labels == [] || (|labels| == 1 && labels[0] == ['.' as int])
  {
    var texts := LabelTexts(labels);
    if |labels| == 1 {
      assert DottedName(labels) == texts[0] && texts[0][0] == labels[0][0] as char;
      assert texts[0] == "." <==> |labels[0]| == 1 && labels[0][0] == '.' as int;
    } else if |labels| > 1 {
      assert |texts[0]| == |labels[0]| && |Join(texts, '.')| == |texts[0]| + 1 + |Join(texts[1..], '.')|;
      assert |texts[1..][0]| == |labels[1]|;
    }
  }

  // ---------------------------------------------------------------- what a name is

  /** How a position in a message spells a name: the zero byte, a label and then more, or a
      pointer to elsewhere. Being finite, a derivation never goes round in a circle. */
  datatype Derivation =
    | Root(at: nat)
    | Labelled(at: nat, rest: Derivation)
    | Pointing(at: nat, rest: Derivation)

  ghost predicate Derives(payload: seq<Byte>, d: Derivation) {
    && d.at < |payload|
    && var b := payload[d.at];
       match d
       case Root(_) => b == 0
       case Labelled(at, rest) =>
         1 <= b <= 63 && at + 1 + b <= |payload| && rest.at == at + 1 + b && Derives(payload, rest)
       case Pointing(at, rest) =>
         b >= 192 && at + 1 < |payload| && rest.at == PointerAt(payload, at) && Derives(payload, rest)
  }

  ghost function Labels(payload: seq<Byte>, d: Derivation): seq<Label>
    requires Derives(payload, d)
  {
    match d
    case Root(_) => []
    case Labelled(at, rest) => [payload[at + 1..at + 1 + payload[at]]] + Labels(payload, rest)
    case Pointing(_, rest) => Labels(payload, rest)
  }

  ghost function Jumps(d: Derivation): nat {
    match d
    case Root(_) => 0
    case Labelled(_, rest) => Jumps(rest)
    case Pointing(_, rest) => 1 + Jumps(rest)
  }

  /** Where the bytes after the name start: a name ends at its first pointer. */
  ghost function End(d: Derivation): nat {
    match d
    case Root(at) => at + 1
    case Labelled(_, rest) => End(rest)
    case Pointing(at, _) => at + 2
  }

  lemma ElementOfDerivation(payload: seq<Byte>, d: Derivation)
    requires Derives(payload, d)
    ensures var e := ElementAt(payload, d.at);
            if d.Root? then e == EndOfName
            else if d.Pointing? then e == Pointer(d.rest.at)
            else e == LabelText(payload[d.at + 1..d.at + 1 + payload[d.at]], d.rest.at)
  {
  }

  lemma ElementDerives(payload: seq<Byte>, d: Derivation)
    requires d.at < |payload| && (!d.Root? ==> Derives(payload, d.rest))
    requires var e := ElementAt(payload, d.at);
             if d.Root? then e == EndOfName
             else if d.Pointing? then e == Pointer(d.rest.at)
             else e.LabelText? && e.next == d.rest.at
    ensures Derives(payload, d)
  {
  }

  lemma {:induction false} ReadHasDerivation(payload: seq<Byte>, cursor: nat, jumps: nat) returns (d: Derivation)
    requires jumps <= MAX_JUMPS && ReadFrom(payload, cursor, jumps).Some?
    ensures Derives(payload, d) && d.at == cursor && jumps + Jumps(d) <= MAX_JUMPS
    decreases MAX_JUMPS - jumps, |payload| - cursor
  {
    match ElementAt(payload, cursor)
    case EndOfName =>
      d := Root(cursor);
      ElementDerives(payload, d);
    case Pointer(target) =>
      var rest := ReadHasDerivation(payload, target, jumps + 1);
      d := Pointing(cursor, rest);
      ElementDerives(payload, d);
    case LabelText(_, next) =>
      var rest := ReadHasDerivation(payload, next, jumps);
      d := Labelled(cursor, rest);
      ElementDerives(payload, d);
  }

  lemma {:induction false} DerivationIsRead(payload: seq<Byte>, d: Derivation, jumps: nat)
    requires Derives(payload, d) && jumps + Jumps(d) <= MAX_JUMPS
    ensures ReadFrom(payload, d.at, jumps) == Some(Name(Labels(payload, d), End(d)))
  {
    ElementOfDerivation(payload, d);
    match d
    case Root(_) =>
    case Labelled(_, rest) => DerivationIsRead(payload, rest, jumps);
    case Pointing(_, rest) => DerivationIsRead(payload, rest, jumps + 1);
  }

  /** The loop accepts exactly the names that the message spells at the offset within 16
      pointer jumps, and returns exactly their labels and end. */
  lemma ReadsExactlyTheNames(payload: seq<Byte>, offset: nat, name: Name)
    ensures ReadFrom(payload, offset, 0) == Some(name) <==>
              exists d :: && Derives(payload, d) && d.at == offset && Jumps(d) <= 16
                          && Labels(payload, d) == name.labels && End(d) == name.end
  {
    if ReadFrom(payload, offset, 0) == Some(name) {
      var d := ReadHasDerivation(payload, offset, 0);
      DerivationIsRead(payload, d, 0);
    }
    forall d | Derives(payload, d) && d.at == offset && Jumps(d) <= 16
      ensures ReadFrom(payload, offset, 0) == Some(Name(Labels(payload, d), End(d)))
    {
      DerivationIsRead(payload, d, 0);
    }
  }

  lemma {:induction false} OneDerivation(payload: seq<Byte>, d: Derivation, e: Derivation)
    requires Derives(payload, d) && Derives(payload, e) && d.at == e.at
    ensures d == e
  {
    if !d.Root? {
      OneDerivation(payload, d.rest, e.rest);
    }
  }

  lemma {:induction false} LabelsAreNotEmpty(payload: seq<Byte>, d: Derivation)
    requires Derives(payload, d)
    ensures WellFormed(Labels(payload, d))
  {
    if !d.Root? {
      LabelsAreNotEmpty(payload, d.rest);
    }
  }

  /** The labels of a name that was read are never empty, so its text shows them exactly when
      none holds a dot. */
  lemma ReadTextShowsLabels(payload: seq<Byte>, offset: nat)
    requires ReadFrom(payload, offset, 0).Some? && ReadFrom(payload, offset, 0).value.labels != []
    ensures var labels := ReadFrom(payload, offset, 0).value.labels;
            Pieces(DottedName(labels), '.') == LabelTexts(labels) <==> !HasDot(labels)
  {
    var d := ReadHasDerivation(payload, offset, 0);
    DerivationIsRead(payload, d, 0);
    LabelsAreNotEmpty(payload, d);
    DottedNameShowsLabels(ReadFrom(payload, offset, 0).value.labels);
  }

  // ---------------------------------------------------------------- cycles

  /** Where the loop's cursor goes from a position, if it goes on at all. */
  function Hop(payload: seq<Byte>, at: nat): Option<nat> {
    if at >= |payload| || payload[at] == 0 then None
    else if payload[at] < 64 then Some(at + 1 + payload[at])
    else if payload[at] >= 192 && at + 1 < |payload| then Some(PointerAt(payload, at))
    else None
  }

  function Hops(payload: seq<Byte>, at: nat, n: nat): Option<nat>
    decreases n
  {
    if n == 0 then Some(at)
    else
      var next := Hop(payload, at);
      if next.None? then None else Hops(payload, next.value, n - 1)
  }

  ghost function Size(d: Derivation): nat {
    if d.Root? then 0 else 1 + Size(d.rest)
  }

  lemma {:induction false} DerivationAfterHops(payload: seq<Byte>, d: Derivation, n: nat) returns (e: Derivation)
    requires Derives(payload, d) && Hops(payload, d.at, n).Some?
    ensures Derives(payload, e) && Hops(payload, d.at, n) == Some(e.at) && Size(e) + n == Size(d)
  {
    if n == 0 {
      e := d;
    } else {
      e := DerivationAfterHops(payload, d.rest, n - 1);
    }
  }

  /** Every cycle is rejected: if the cursor would come back to a position it had reached
      from the offset, there is no name at the offset, however many jumps are allowed. */
  lemma CyclesAreRejected(payload: seq<Byte>, offset: nat, n: nat, m: nat)
    requires Hops(payload, offset, n).Some? && m > 0
    requires Hops(payload, Hops(payload, offset, n).value, m) == Hops(payload, offset, n)
    ensures !exists d :: Derives(payload, d) && d.at == offset
    ensures ReadFrom(payload, offset, 0).None?
  {
    forall d | Derives(payload, d) && d.at == offset ensures false {
      var e := DerivationAfterHops(payload, d, n);
      var f := DerivationAfterHops(payload, e, m);
      OneDerivation(payload, e, f);
    }
    if ReadFrom(payload, offset, 0).Some? {
      var d := ReadHasDerivation(payload, offset, 0);
    }
  }

  // ---------------------------------------------------------------- writing

  predicate WellFormed(labels: seq<Label>) {
    forall i :: 0 <= i < |labels| ==> 1 <= |labels[i]| <= 63
  }

  function WriteLabel(text: Label): seq<Byte>
    requires |text| <= 63
  {
    [|text|] + text
  }

  function WriteLabels(labels: seq<Label>): seq<Byte>
    requires WellFormed(labels)
  {
    if labels == [] then [] else WriteLabel(labels[0]) + WriteLabels(labels[1..])
  }

  function WritePlain(labels: seq<Label>): seq<Byte>
    requires WellFormed(labels)
  {
    WriteLabels(labels) + [0]
  }

  function PointerBytes(target: nat): seq<Byte>
    requires target < 0x4000
  {
    [192 + target / 256, target % 256]
  }

  function WriteCompressed(prefix: seq<Label>, target: nat): seq<Byte>
    requires WellFormed(prefix) && target < 0x4000
  {
    WriteLabels(prefix) + PointerBytes(target)
  }

  lemma LabelBefore(payload: seq<Byte>, offset: nat, text: Label, d: Derivation) returns (e: Derivation)
    requires 1 <= |text| <= 63 && At(payload, offset, WriteLabel(text))
    requires Derives(payload, d) && d.at == offset + |WriteLabel(text)|
    ensures Derives(payload, e) && e.at == offset && Jumps(e) == Jumps(d) && End(e) == End(d)
    ensures Labels(payload, e) == [text] + Labels(payload, d)
  {
    LabelAt(payload, offset, text);
    e := Labelled(offset, d);
  }

  lemma FirstLabelAt(payload: seq<Byte>, offset: nat, labels: seq<Label>)
    requires labels != [] && WellFormed(labels) && At(payload, offset, WriteLabels(labels))
    ensures |WriteLabels(labels)| == |WriteLabel(labels[0])| + |WriteLabels(labels[1..])|
    ensures At(payload, offset, WriteLabel(labels[0]))
    ensures At(payload, offset + |WriteLabel(labels[0])|, WriteLabels(labels[1..]))
  {
    AtParts(payload, offset, WriteLabel(labels[0]), WriteLabels(labels[1..]));
  }

  /** Labels written in front of a position that spells a name spell the longer name. */
  lemma {:induction false} LabelsBefore(payload: seq<Byte>, offset: nat, labels: seq<Label>, d: Derivation)
    returns (e: Derivation)
    requires WellFormed(labels) && At(payload, offset, WriteLabels(labels))
    requires Derives(payload, d) && d.at == offset + |WriteLabels(labels)|
    ensures Derives(payload, e) && e.at == offset && Jumps(e) == Jumps(d) && End(e) == End(d)
    ensures Labels(payload, e) == labels + Labels(payload, d)
    decreases |labels|
  {
    if labels == [] {
      e := d;
      assert [] + Labels(payload, d) == Labels(payload, d);
    } else {
      var first, more := labels[0], labels[1..];
      FirstLabelAt(payload, offset, labels);
      var rest := LabelsBefore(payload, offset + |WriteLabel(first)|, more, d);
      e := LabelBefore(payload, offset, first, rest);
      assert labels == [first] + more;
      Associative([first], more, Labels(payload, d));
    }
  }

  lemma LabelAt(payload: seq<Byte>, offset: nat, text: Label)
    requires 1 <= |text| <= 63 && At(payload, offset, WriteLabel(text))
    ensures payload[offset] == |text| && payload[offset + 1..offset + 1 + |text|] == text
  {
    AtParts(payload, offset, [|text|], text);
    assert payload[offset] == payload[offset..offset + 1][0];
  }

  /** A name written out in full reads back, wherever in the payload it stands. */
  lemma PlainRoundTrip(payload: seq<Byte>, offset: nat, labels: seq<Label>)
    requires WellFormed(labels) && At(payload, offset, WritePlain(labels))
    ensures ReadFrom(payload, offset, 0) == Some(Name(labels, offset + |WritePlain(labels)|))
  {
    AtParts(payload, offset, WriteLabels(labels), [0]);
    var end := offset + |WriteLabels(labels)|;
    assert payload[end] == payload[end..end + 1][0] == 0;
    NameWithPrefix(payload, offset, labels, Root(end));
    assert labels + [] == labels;
  }

  lemma PointerAtEnd(payload: seq<Byte>, at: nat, target: nat)
    requires target < 0x4000 && At(payload, at, PointerBytes(target))
    ensures at + 1 < |payload| && payload[at] >= 192 && PointerAt(payload, at) == target
  {
    assert payload[at] == payload[at..at + 2][0] == 192 + target / 256;
    assert payload[at + 1] == payload[at..at + 2][1] == target % 256;
  }

  lemma PointerBefore(payload: seq<Byte>, at: nat, suffix: Derivation)
    requires Derives(payload, suffix) && suffix.at < 0x4000 && At(payload, at, PointerBytes(suffix.at))
    ensures Derives(payload, Pointing(at, suffix)) && End(Pointing(at, suffix)) == at + 2
    ensures Labels(payload, Pointing(at, suffix)) == Labels(payload, suffix)
  {
    PointerAtEnd(payload, at, suffix.at);
  }

  /** A name written as a prefix and a pointer to a position that spells the suffix within
      the remaining jumps reads back as prefix and suffix, and ends after the pointer. */
  lemma CompressedRoundTrip(payload: seq<Byte>, offset: nat, prefix: seq<Label>, suffix: Derivation)
    requires WellFormed(prefix) && Derives(payload, suffix) && suffix.at < 0x4000 && Jumps(suffix) < MAX_JUMPS
    requires At(payload, offset, WriteCompressed(prefix, suffix.at))
    ensures ReadFrom(payload, offset, 0)
            == Some(Name(prefix + Labels(payload, suffix), offset + |WriteCompressed(prefix, suffix.at)|))
  {
    AtParts(payload, offset, WriteLabels(prefix), PointerBytes(suffix.at));
    var end := offset + |WriteLabels(prefix)|;
    PointerBefore(payload, end, suffix);
    NameWithPrefix(payload, offset, prefix, Pointing(end, suffix));
  }

  /** Labels and then what a position spells. */
  lemma NameWithPrefix(payload: seq<Byte>, offset: nat, prefix: seq<Label>, d: Derivation)
    requires WellFormed(prefix) && At(payload, offset, WriteLabels(prefix))
    requires Derives(payload, d) && d.at == offset + |WriteLabels(prefix)| && Jumps(d) <= MAX_JUMPS
    ensures ReadFrom(payload, offset, 0) == Some(Name(prefix + Labels(payload, d), End(d)))
  {
    var e := LabelsBefore(payload, offset, prefix, d);
    DerivationIsRead(payload, e, 0);
  }

  /** A name as a sender may write it: in full, or as a prefix of a name that the message
      spells elsewhere. */
  datatype NameOut = Plain(labels: seq<Label>) | Compressed(prefix: seq<Label>, suffix: Derivation)

  predicate CanBeWritten(n: NameOut) {
    match n
    case Plain(labels) => WellFormed(labels)
    case Compressed(prefix, suffix) => WellFormed(prefix) && suffix.at < 0x4000
  }

  function WriteName(n: NameOut): seq<Byte>
    requires CanBeWritten(n)
  {
    match n
    case Plain(labels) => WritePlain(labels)
    case Compressed(prefix, suffix) => WriteCompressed(prefix, suffix.at)
  }

  /** The payload does spell what the name points to, within the remaining jumps. */
  ghost predicate Resolves(payload: seq<Byte>, n: NameOut) {
    n.Compressed? ==> Derives(payload, n.suffix) && Jumps(n.suffix) < MAX_JUMPS
  }

  ghost function LabelsOf(payload: seq<Byte>, n: NameOut): seq<Label>
    requires Resolves(payload, n)
  {
    match n
    case Plain(labels) => labels
    case Compressed(prefix, suffix) => prefix + Labels(payload, suffix)
  }

  ghost function NameText(payload: seq<Byte>, n: NameOut): string
    requires Resolves(payload, n)
  {
    DottedName(LabelsOf(payload, n))
  }

  /** Either way of writing a name is read back, wherever in the payload it stands. */
  lemma NameRoundTrip(payload: seq<Byte>, offset: nat, n: NameOut)
    requires CanBeWritten(n) && Resolves(payload, n) && At(payload, offset, WriteName(n))
    ensures ReadFrom(payload, offset, 0) == Some(Name(LabelsOf(payload, n), offset + |WriteName(n)|))
  {
    match n
    case Plain(labels) => PlainRoundTrip(payload, offset, labels);
    case Compressed(prefix, suffix) => CompressedRoundTrip(payload, offset, prefix, suffix);
  }
}
