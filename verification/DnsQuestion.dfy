/** The DNS question parser of the forwarder: sections 2.3.3, 2.3.4, 3.1, 4.1.1 and 4.1.2
    of RFC 1035, restricted to one uncompressed TXT/IN question. */
module DnsQuestion {
  import opened Wrappers
  import opened Sequences

  type Label = seq<byte>

  /** Decoding as "ascii" drops the high bit of every byte. */
  function Ascii(b: byte): (c: char) {
    (b % 128) as char
  }

  predicate NameChar(c: char) {
    'a' <= c <= 'z' || 'A' <= c <= 'Z' || '0' <= c <= '9' || c == '_' || c == '-'
  }

  function Lower(c: char): (l: char) {
    if 'A' <= c <= 'Z' then c - 'A' + 'a' else c
  }

  predicate ValidText(part: Label) {
    |part| > 0 && forall k | 0 <= k < |part| :: NameChar(Ascii(part[k]))
  }

  predicate ValidLabel(part: Label) {
    |part| <= 63 && ValidText(part)
  }

  predicate ValidLabels(labels: seq<Label>) {
    forall k | 0 <= k < |labels| :: ValidLabel(labels[k])
  }

  function Decode(part: Label): (text: string)
    ensures |text| == |part|
  {
    seq(|part|, k requires 0 <= k < |part| => Lower(Ascii(part[k])))
  }

  /** The labels in lower case, joined by dots. */
  function Name(labels: seq<Label>): (name: string) {
    if labels == [] then ""
    else if |labels| == 1 then Decode(labels[0])
    else Decode(labels[0]) + "." + Name(labels[1..])
  }

  /** Length-prefixed labels and the root. */
  function EncodeName(labels: seq<Label>): (bytes: seq<byte>)
    requires ValidLabels(labels)
  {
    if labels == [] then [0] else [|labels[0]|] + labels[0] + EncodeName(labels[1..])
  }

  const TXT_IN: seq<byte> := [0, 16, 0, 1]

  function U16(packet: seq<byte>, at: nat): (n: int)
    requires at + 2 <= |packet|
  {
    var high: int, low: int := packet[at], packet[at + 1];
    high * 256 + low
  }

  // ----- the parser as a function -----

  datatype Parsed = Refused | Labels(labels: seq<Label>, end: nat)

  function ParseLabels(packet: seq<byte>, offset: nat): (r: Parsed)
    ensures r.Labels? ==> offset < r.end <= |packet| && ValidLabels(r.labels)
    decreases |packet| - offset
  {
    if offset >= |packet| then Refused
    else
      var size := packet[offset];
      if size == 0 then Labels([], offset + 1)
      else if size > 63 || offset + 1 + size > |packet| then Refused
      else
        var part := packet[offset + 1..offset + 1 + size];
        if !ValidText(part) then Refused
        else match ParseLabels(packet, offset + 1 + size)
          case Refused => Refused
          case Labels(labels, end) => Labels([part] + labels, end)
  }

  function Question(packet: seq<byte>): (r: Option<string>) {
    if !(17 <= |packet| <= 4096) || U16(packet, 4) != 1 then None
    else match ParseLabels(packet, 12)
      case Refused => None
      case Labels(labels, end) =>
        if end + 4 <= |packet| && |Name(labels)| <= 253 && U16(packet, end) == 16 && U16(packet, end + 2) == 1
        then Some(Name(labels)) else None
  }

  // ----- parsing inverts encoding -----

  /** One label in front of others that parse. */
  lemma ParseFirst(packet: seq<byte>, offset: nat, part: Label, rest: seq<Label>, end: nat)
    requires ValidLabel(part) && offset + 1 + |part| <= |packet|
    requires packet[offset] == |part| && packet[offset + 1..offset + 1 + |part|] == part
    requires ParseLabels(packet, offset + 1 + |part|) == Labels(rest, end)
    ensures ParseLabels(packet, offset) == Labels([part] + rest, end)
  {
  }

  lemma EncodingParts(labels: seq<Label>)
    requires ValidLabels(labels) && labels != []
    ensures var code, n := EncodeName(labels), |labels[0]|;
            && |code| == 1 + n + |EncodeName(labels[1..])| && code[0] == n
            && code[1..1 + n] == labels[0] && code[1 + n..] == EncodeName(labels[1..])
  {
  }

  lemma SubSlice(packet: seq<byte>, offset: nat, code: seq<byte>, i: nat, j: nat)
    requires offset + |code| <= |packet| && packet[offset..offset + |code|] == code && i <= j <= |code|
    ensures packet[offset + i..offset + j] == code[i..j]
    ensures code != [] ==> packet[offset] == code[0]
  {
    forall k | i <= k < j
      ensures packet[offset + k] == code[k]
    {
      assert packet[offset..offset + |code|][k] == packet[offset + k];
    }
    assert code != [] ==> packet[offset..offset + |code|][0] == packet[offset];
  }

  predicate Holds(packet: seq<byte>, offset: nat, code: seq<byte>) {
    offset + |code| <= |packet| && packet[offset..offset + |code|] == code
  }

  lemma PartsAt(packet: seq<byte>, offset: nat, code: seq<byte>, part: Label, rest: seq<byte>)
    requires Holds(packet, offset, code) && |code| == 1 + |part| + |rest| && code[0] == |part|
    requires code[1..1 + |part|] == part && code[1 + |part|..] == rest
    ensures packet[offset] == |part| && packet[offset + 1..offset + 1 + |part|] == part
    ensures Holds(packet, offset + 1 + |part|, rest)
  {
    SubSlice(packet, offset, code, 1, 1 + |part|);
    SubSlice(packet, offset, code, 1 + |part|, |code|);
  }

  lemma HoldsParts(packet: seq<byte>, offset: nat, labels: seq<Label>)
    requires ValidLabels(labels) && labels != [] && Holds(packet, offset, EncodeName(labels))
    ensures var n := |labels[0]|;
            && offset + 1 + n <= |packet|
            && packet[offset] == n && packet[offset + 1..offset + 1 + n] == labels[0]
            && Holds(packet, offset + 1 + n, EncodeName(labels[1..]))
            && |EncodeName(labels)| == 1 + n + |EncodeName(labels[1..])|
  {
    EncodingParts(labels);
    PartsAt(packet, offset, EncodeName(labels), labels[0], EncodeName(labels[1..]));
  }

  lemma {:induction false} ParseAt(packet: seq<byte>, offset: nat, labels: seq<Label>)
    requires ValidLabels(labels) && Holds(packet, offset, EncodeName(labels))
    ensures ParseLabels(packet, offset) == Labels(labels, offset + |EncodeName(labels)|)
    decreases |labels|
  {
    if labels == [] {
      SubSlice(packet, offset, EncodeName(labels), 0, 1);
    } else {
      HoldsParts(packet, offset, labels);
      var next := offset + 1 + |labels[0]|;
      ParseAt(packet, next, labels[1..]);
      ParseFirst(packet, offset, labels[0], labels[1..], next + |EncodeName(labels[1..])|);
    }
  }

  lemma ParseEncoded(before: seq<byte>, labels: seq<Label>, after: seq<byte>)
    requires ValidLabels(labels)
    ensures ParseLabels(before + EncodeName(labels) + after, |before|)
         == Labels(labels, |before| + |EncodeName(labels)|)
  {
    var packet := before + EncodeName(labels) + after;
    assert packet[|before|..|before| + |EncodeName(labels)|] == EncodeName(labels);
    ParseAt(packet, |before|, labels);
  }

  lemma {:induction false} EncodedParse(packet: seq<byte>, offset: nat)
    requires ParseLabels(packet, offset).Labels?
    ensures var r := ParseLabels(packet, offset);
            packet[offset..r.end] == EncodeName(r.labels)
    decreases |packet| - offset
  {
    var r := ParseLabels(packet, offset);
    var size := packet[offset];
    if size > 0 {
      var next := offset + 1 + size;
      EncodedParse(packet, next);
      assert r.labels[1..] == ParseLabels(packet, next).labels;
      assert packet[offset..r.end] == [size] + packet[offset + 1..next] + packet[next..r.end];
    }
  }

  lemma TailOfEncoding(front: seq<byte>, trailing: seq<byte>)
    ensures var packet := front + TXT_IN + trailing;
            U16(packet, |front|) == 16 && U16(packet, |front| + 2) == 1
  {
  }

  /** For every valid name, header with one question and trailing bytes within the size
      bounds, parsing the encoding yields the lower-cased name. */
  lemma ParsingInvertsEncoding(header: seq<byte>, labels: seq<Label>, trailing: seq<byte>)
    requires |header| == 12 && U16(header, 4) == 1
    requires ValidLabels(labels) && |Name(labels)| <= 253
    requires |header + EncodeName(labels) + TXT_IN + trailing| <= 4096
    ensures Question(header + EncodeName(labels) + TXT_IN + trailing) == Some(Name(labels))
  {
    var name := EncodeName(labels);
    var packet := header + name + TXT_IN + trailing;
    Regroup(header, name, TXT_IN, trailing);
    ParseEncoded(header, labels, TXT_IN + trailing);
    TailOfEncoding(header + name, trailing);
    HeaderStays(header, name + (TXT_IN + trailing));
    Regroup(header, name, TXT_IN, trailing);
    QuestionOf(packet, labels, |header| + |name|);
  }

  lemma Regroup(a: seq<byte>, b: seq<byte>, c: seq<byte>, d: seq<byte>)
    ensures a + b + c + d == a + b + (c + d) == a + (b + (c + d))
  {
  }

  lemma HeaderStays(header: seq<byte>, rest: seq<byte>)
    requires |header| == 12
    ensures U16(header + rest, 4) == U16(header, 4)
  {
  }

  lemma QuestionOf(packet: seq<byte>, labels: seq<Label>, end: nat)
    requires 17 <= |packet| <= 4096 && U16(packet, 4) == 1
    requires ParseLabels(packet, 12) == Labels(labels, end) && |Name(labels)| <= 253
    requires end + 4 <= |packet| && U16(packet, end) == 16 && U16(packet, end + 2) == 1
    ensures Question(packet) == Some(Name(labels))
  {
  }

  /** Conversely an accepted packet is the encoding of labels whose lower-cased ASCII text
      is the returned name; the labels are the parsed ones. */
  lemma AcceptedIsAnEncoding(packet: seq<byte>) returns (labels: seq<Label>, trailing: seq<byte>)
    requires Question(packet).Some?
    ensures ValidLabels(labels) && Name(labels) == Question(packet).value
    ensures packet == packet[..12] + EncodeName(labels) + TXT_IN + trailing
    ensures U16(packet, 4) == 1 && 17 <= |packet| <= 4096 && |Name(labels)| <= 253
  {
    var r := ParseLabels(packet, 12);
    labels, trailing := r.labels, packet[r.end + 4..];
    EncodedParse(packet, 12);
    TailIsTxtIn(packet, r.end);
    SplitAt(packet, 12, r.end, r.end + 4);
  }

  lemma TailIsTxtIn(packet: seq<byte>, end: nat)
    requires end + 4 <= |packet| && U16(packet, end) == 16 && U16(packet, end + 2) == 1
    ensures packet[end..end + 4] == TXT_IN
  {
    assert packet[end] == 0 && packet[end + 1] == 16 && packet[end + 2] == 0 && packet[end + 3] == 1;
  }

  lemma SplitAt(packet: seq<byte>, i: nat, j: nat, k: nat)
    requires i <= j <= k <= |packet|
    ensures packet == packet[..i] + packet[i..j] + packet[j..k] + packet[k..]
  {
  }

  // ----- the name determines the labels up to case and the high bit -----

  predicate SameText(a: seq<Label>, b: seq<Label>) {
    |a| == |b| && forall k | 0 <= k < |a| :: Decode(a[k]) == Decode(b[k])
  }

  lemma NoDot(part: Label)
    requires ValidText(part)
    ensures Decode(part) != "" && '.' !in Decode(part)
  {
    forall k | 0 <= k < |part|
      ensures Decode(part)[k] != '.'
    {
      assert NameChar(Ascii(part[k]));
    }
  }

  predicate FirstDot(name: string, n: nat) {
    && n <= |name|
    && (forall k | 0 <= k < n :: name[k] != '.')
    && (n < |name| ==> name[n] == '.')
  }

  /** The first dot of a name is where its first label ends. */
  lemma FirstLabelEnds(labels: seq<Label>)
    requires ValidLabels(labels) && labels != []
    ensures var n := |labels[0]|;
            && FirstDot(Name(labels), n) && Name(labels)[..n] == Decode(labels[0])
            && (n == |Name(labels)| <==> |labels| == 1)
            && (|labels| > 1 ==> Name(labels)[n + 1..] == Name(labels[1..]))
  {
    NoDot(labels[0]);
    var first := Decode(labels[0]);
    forall k | 0 <= k < |first|
      ensures Name(labels)[k] != '.'
    {
      assert Name(labels)[k] == first[k];
      assert first[k] in first;
    }
    assert Name(labels)[..|first|] == first;
  }

  lemma {:induction false} NameDeterminesLabels(a: seq<Label>, b: seq<Label>)
    requires ValidLabels(a) && ValidLabels(b) && Name(a) == Name(b)
    ensures SameText(a, b)
    decreases |a|
  {
    if a != [] {
      NoDot(a[0]);
    }
    if b != [] {
      NoDot(b[0]);
    }
    if a != [] && b != [] {
      FirstLabelEnds(a);
      FirstLabelEnds(b);
      assert |a[0]| == |b[0]|;
      if |a| > 1 {
        NameDeterminesLabels(a[1..], b[1..]);
        forall k | 0 <= k < |a|
          ensures Decode(a[k]) == Decode(b[k])
        {
          if k > 0 {
            assert a[k] == a[1..][k - 1] && b[k] == b[1..][k - 1];
          }
        }
      }
    }
  }

  // ----- what the name is, in characters -----

  /** What a returned name is made of, dots aside. */
  predicate PlainChar(c: char) {
    'a' <= c <= 'z' || '0' <= c <= '9' || c == '_' || c == '-'
  }

  predicate PlainText(text: string) {
    0 < |text| <= 63 && forall k | 0 <= k < |text| :: PlainChar(text[k])
  }

  predicate PlainTexts(texts: seq<string>) {
    forall k | 0 <= k < |texts| :: PlainText(texts[k])
  }

  /** The texts with dots between them. */
  function Join(texts: seq<string>): (name: string) {
    if texts == [] then "" else if |texts| == 1 then texts[0] else texts[0] + "." + Join(texts[1..])
  }

  function BytesOf(text: string): (bytes: Label)
    requires PlainText(text)
  {
    seq(|text|, k requires 0 <= k < |text| => text[k] as int)
  }

  function LabelsOf(texts: seq<string>): (labels: seq<Label>)
    requires PlainTexts(texts)
    ensures |labels| == |texts|
  {
    seq(|texts|, k requires 0 <= k < |texts| => BytesOf(texts[k]))
  }

  lemma PlainTextDecodes(text: string)
    requires PlainText(text)
    ensures ValidLabel(BytesOf(text)) && Decode(BytesOf(text)) == text
  {
    forall k | 0 <= k < |text|
      ensures NameChar(Ascii(BytesOf(text)[k])) && Decode(BytesOf(text))[k] == text[k]
    {
      assert PlainChar(text[k]);
    }
  }

  lemma {:induction false} PlainTextsDecode(texts: seq<string>)
    requires PlainTexts(texts)
    ensures ValidLabels(LabelsOf(texts)) && Name(LabelsOf(texts)) == Join(texts)
    decreases |texts|
  {
    forall k | 0 <= k < |texts|
      ensures ValidLabel(LabelsOf(texts)[k])
    {
      PlainTextDecodes(texts[k]);
    }
    if texts != [] {
      PlainTextDecodes(texts[0]);
      PlainTextsDecode(texts[1..]);
      assert LabelsOf(texts)[1..] == LabelsOf(texts[1..]);
    }
  }

  /** A name in lower case is returned as it is: its texts joined by dots. */
  lemma PlainNameIsReturned(header: seq<byte>, texts: seq<string>, trailing: seq<byte>)
    requires |header| == 12 && header[4] == 0 && header[5] == 1
    requires PlainTexts(texts) && |Join(texts)| <= 253
    requires |header + EncodeName(PlainLabels(texts)) + TXT_IN + trailing| <= 4096
    ensures Question(header + EncodeName(PlainLabels(texts)) + TXT_IN + trailing) == Some(Join(texts))
  {
    PlainTextsDecode(texts);
    ParsingInvertsEncoding(header, LabelsOf(texts), trailing);
  }

  function PlainLabels(texts: seq<string>): (labels: seq<Label>)
    requires PlainTexts(texts)
    ensures ValidLabels(labels)
  {
    PlainTextsDecode(texts);
    LabelsOf(texts)
  }

  /** The bytes differ at most in the high bit, or in the case of an ASCII letter. */
  predicate SameByte(a: byte, b: byte) {
    var x: int, y: int := a % 128, b % 128;
    x == y || (65 <= x <= 90 && y == x + 32) || (65 <= y <= 90 && x == y + 32)
  }

  predicate SameLabel(a: Label, b: Label) {
    |a| == |b| && forall k | 0 <= k < |a| :: SameByte(a[k], b[k])
  }

  predicate SameLabels(a: seq<Label>, b: seq<Label>) {
    |a| == |b| && forall k | 0 <= k < |a| :: SameLabel(a[k], b[k])
  }

  lemma SameLabelReads(a: Label, b: Label)
    requires SameLabel(a, b) && ValidLabel(a)
    ensures ValidLabel(b) && Decode(a) == Decode(b)
  {
    forall k | 0 <= k < |a|
      ensures NameChar(Ascii(b[k])) && Lower(Ascii(a[k])) == Lower(Ascii(b[k]))
    {
      assert SameByte(a[k], b[k]) && NameChar(Ascii(a[k]));
    }
  }

  /** Case and high bits are irrelevant: such labels are as valid and parse to the same name. */
  lemma {:induction false} CaseIsIrrelevant(a: seq<Label>, b: seq<Label>)
    requires SameLabels(a, b) && ValidLabels(a)
    ensures ValidLabels(b) && Name(a) == Name(b)
    decreases |a|
  {
    forall k | 0 <= k < |b|
      ensures ValidLabel(b[k])
    {
      assert SameLabel(a[k], b[k]);
      SameLabelReads(a[k], b[k]);
    }
    if a != [] {
      assert SameLabel(a[0], b[0]);
      SameLabelReads(a[0], b[0]);
      forall k | 0 <= k < |a[1..]|
        ensures SameLabel(a[1..][k], b[1..][k])
      {
        assert SameLabel(a[k + 1], b[k + 1]);
      }
      CaseIsIrrelevant(a[1..], b[1..]);
    }
  }

  lemma {:induction false} NameIsPlain(labels: seq<Label>)
    requires ValidLabels(labels)
    ensures forall k | 0 <= k < |Name(labels)| :: PlainChar(Name(labels)[k]) || Name(labels)[k] == '.'
    decreases |labels|
  {
    if labels != [] {
      DecodeIsPlain(labels[0]);
      NameIsPlain(labels[1..]);
    }
  }

  lemma DecodeIsPlain(part: Label)
    requires ValidText(part)
    ensures forall k | 0 <= k < |Decode(part)| :: PlainChar(Decode(part)[k])
  {
    forall k | 0 <= k < |part|
      ensures PlainChar(Decode(part)[k])
    {
      assert NameChar(Ascii(part[k]));
    }
  }

  /** A returned name holds lower-case letters, digits, underscores, hyphens and dots only,
      and is short. */
  lemma ReturnedNameIsPlain(packet: seq<byte>)
    requires Question(packet).Some?
    ensures var name := Question(packet).value;
            |name| <= 253 && forall k | 0 <= k < |name| :: PlainChar(name[k]) || name[k] == '.'
  {
    var labels, trailing := AcceptedIsAnEncoding(packet);
    NameIsPlain(labels);
  }

  /** `packet` is a header with one question, an encoded name, TXT and IN, and any rest. */
  ghost predicate Encodes(packet: seq<byte>, labels: seq<Label>, trailing: seq<byte>) {
    && 17 <= |packet| <= 4096 && packet[4] == 0 && packet[5] == 1
    && ValidLabels(labels) && |Name(labels)| <= 253 && (forall k | 0 <= k < |labels| :: 1 <= |labels[k]| <= 63)
    && packet == packet[..12] + EncodeName(labels) + [0, 16, 0, 1] + trailing
  }

  lemma EncodingIsAccepted(packet: seq<byte>, labels: seq<Label>, trailing: seq<byte>)
    requires Encodes(packet, labels, trailing)
    ensures Question(packet) == Some(Name(labels))
  {
    ParsingInvertsEncoding(packet[..12], labels, trailing);
  }

  lemma AcceptedEncodes(packet: seq<byte>) returns (labels: seq<Label>, trailing: seq<byte>)
    requires Question(packet).Some?
    ensures Encodes(packet, labels, trailing) && Question(packet) == Some(Name(labels))
  {
    labels, trailing := AcceptedIsAnEncoding(packet);
    forall k | 0 <= k < |labels|
      ensures 1 <= |labels[k]| <= 63
    {
      assert ValidLabel(labels[k]);
    }
  }

  /** Exactly the encodings are accepted. */
  lemma AcceptedExactlyWhen(packet: seq<byte>)
    ensures Question(packet).Some? <==> exists labels, trailing :: Encodes(packet, labels, trailing)
  {
    if Question(packet).Some? {
      var labels, trailing := AcceptedEncodes(packet);
    } else {
      forall labels, trailing | Encodes(packet, labels, trailing)
        ensures false
      {
        EncodingIsAccepted(packet, labels, trailing);
      }
    }
  }

  // ----- queries and responses -----

  predicate VerifyDatagrams(query: seq<byte>, response: seq<byte>, name: string) {
    && Question(query) == Some(name)
    && Question(response) == Some(name)
    && query[2] < 128
    && response[2] >= 128
    && response[2] / 2 % 2 == 0
    && U16(response, 0) == U16(query, 0)
  }

  /** The flags, as the bits of the second header word: the query bit of both packets and the
      truncation bit of the response. */
  lemma VerifiedExactlyWhen(query: seq<byte>, response: seq<byte>, name: string)
    ensures VerifyDatagrams(query, response, name) <==>
              && Question(query) == Some(name) == Question(response)
              && query[..2] == response[..2]
              && U16(query, 2) / 0x8000 % 2 == 0
              && U16(response, 2) / 0x8000 % 2 == 1
              && U16(response, 2) / 0x200 % 2 == 0
  {
    if Question(query) == Some(name) == Question(response) {
      assert query[..2] == [query[0], query[1]] && response[..2] == [response[0], response[1]];
      HighBits(query);
      HighBits(response);
    }
  }

  lemma HighBits(packet: seq<byte>)
    requires |packet| >= 4
    ensures U16(packet, 2) / 0x8000 % 2 == (if packet[2] >= 128 then 1 else 0)
    ensures U16(packet, 2) / 0x200 % 2 == packet[2] / 2 % 2
  {
    var high: int, low: int := packet[2], packet[3];
    assert (high * 256 + low) / 0x200 == high / 2;
  }

  lemma EncodingIsPrefix(packet: seq<byte>, name: seq<byte>, trailing: seq<byte>)
    requires 12 <= |packet| && packet == packet[..12] + name + TXT_IN + trailing
    ensures name <= packet[12..]
  {
    assert packet[12..] == name + TXT_IN + trailing;
  }

  /** A verified response carries the transaction and the question of its query: both
      packets encode the same labels up to case and the high bit. */
  lemma VerifiedResponseAnswersTheQuery(query: seq<byte>, response: seq<byte>, name: string)
    returns (asked: seq<Label>, answered: seq<Label>)
    requires VerifyDatagrams(query, response, name)
    ensures ValidLabels(asked) && ValidLabels(answered) && SameText(asked, answered)
    ensures EncodeName(asked) <= query[12..] && EncodeName(answered) <= response[12..]
    ensures query[..2] == response[..2] && query != response
  {
    var more, rest;
    asked, more := AcceptedIsAnEncoding(query);
    answered, rest := AcceptedIsAnEncoding(response);
    NameDeterminesLabels(asked, answered);
    EncodingIsPrefix(query, EncodeName(asked), more);
    EncodingIsPrefix(response, EncodeName(answered), rest);
    assert query[0] == response[0] && query[1] == response[1];
  }

  // ----- the parser itself -----

  /** Labels already read, in front of what is still to come. */
  function Prepend(labels: seq<Label>, parsed: Parsed): (r: Parsed) {
    match parsed
    case Refused => Refused
    case Labels(more, end) => Labels(labels + more, end)
  }

  lemma PrependOne(labels: seq<Label>, part: Label, parsed: Parsed)
    ensures Prepend(labels, Prepend([part], parsed)) == Prepend(labels + [part], parsed)
  {
    assert parsed.Labels? ==> labels + ([part] + parsed.labels) == labels + [part] + parsed.labels;
  }

  lemma ParseNext(packet: seq<byte>, offset: nat)
    requires offset < |packet| && 0 < packet[offset] <= 63 && offset + 1 + packet[offset] <= |packet|
    requires ValidText(packet[offset + 1..offset + 1 + packet[offset]])
    ensures ParseLabels(packet, offset)
         == Prepend([packet[offset + 1..offset + 1 + packet[offset]]], ParseLabels(packet, offset + 1 + packet[offset]))
  {
  }

  /** The label loop: it stays inside the packet and ends. */
  method ScanLabels(packet: seq<byte>) returns (r: Parsed)
    requires 12 <= |packet|
    ensures r == ParseLabels(packet, 12)
  {
    var offset: nat := 12;
    var labels: seq<Label> := [];
    assert ParseLabels(packet, 12) == Prepend([], ParseLabels(packet, 12));
    while true
      invariant offset <= |packet|
      invariant ParseLabels(packet, 12) == Prepend(labels, ParseLabels(packet, offset))
      decreases |packet| - offset
    {
      if offset >= |packet| {
        return Refused;
      }
      var size := packet[offset];
      if size == 0 {
        assert labels + [] == labels;
        return Labels(labels, offset + 1);
      }
      if size > 63 || offset + 1 + size > |packet| {
        return Refused;
      }
      var part := packet[offset + 1..offset + 1 + size];
      if !ValidText(part) {
        return Refused;
      }
      ParseNext(packet, offset);
      PrependOne(labels, part, ParseLabels(packet, offset + 1 + size));
      labels := labels + [part];
      offset := offset + 1 + size;
    }
  }

  method ParseQuestion(packet: seq<byte>) returns (r: Option<string>)
    ensures r == Question(packet)
  {
    if |packet| < 17 || |packet| > 4096 || U16(packet, 4) != 1 {
      return None;
    }
    var parsed := ScanLabels(packet);
    if parsed.Refused? {
      return None;
    }
    var end, name := parsed.end, Name(parsed.labels);
    if end + 4 > |packet| || |name| > 253 || U16(packet, end) != 16 || U16(packet, end + 2) != 1 {
      return None;
    }
    return Some(name);
  }
}
