/** The agent's DNS responder: one question in, one response out (sections 4.1.1 to 4.1.4 of RFC 1035). */
module Dns {
  import opened Prelude
  import opened Decimal
  import opened Names

  const TYPE_A: u16 := 1
  const CLASS_IN: u16 := 1
  const RCODE_NXDOMAIN: byte := 3
  const RCODE_NOTIMP: byte := 4

  datatype DnsRecord = DnsRecord(name: string, recordType: string, value: string)

  datatype DnsQuery = DnsQuery(id: u16, qname: string, qtype: u16, qclass: u16, questionEnd: nat)

  datatype DnsError =
    | TooShort
    | NotOneQuestion
    | NameTruncated
    | NameCompressed
    | BadLabelLength
    | BadUtf8
    | QuestionTruncated

  // ---------------------------------------------------------------- resolution

  predicate EndsWith(s: string, tail: string)
  {
    |s| >= |tail| && s[|s| - |tail|..] == tail
  }

  function SplitDots(s: string): (parts: seq<string>)
    ensures |parts| >= 1
  {
    if s == [] then [[]]
    else
      var rest := SplitDots(s[1..]);
      if s[0] == '.' then [[]] + rest else [[s[0]] + rest[0]] + rest[1..]
  }

  function ParseOctet(s: string): (octet: Option<byte>)
  {
    if s == [] || |s| > 3 || (|s| > 1 && s[0] == '0') then None
    else match ValueOf(s)
         case None => None
         case Some(n) => if n < 256 then Some(n) else None
  }

  /** Dotted decimal, without leading zeros. */
  function ParseIpv4(s: string): (ip: Option<Ipv4>)
  {
    var parts := SplitDots(s);
    if |parts| != 4 then None
    else
      var a, b, c, d := ParseOctet(parts[0]), ParseOctet(parts[1]), ParseOctet(parts[2]), ParseOctet(parts[3]);
      if a.None? || b.None? || c.None? || d.None? then None else Some(Ipv4(a.value, b.value, c.value, d.value))
  }

  /** The first A record with the queried name, if the name lies under the suffix. */
  function FirstMatch(records: seq<DnsRecord>, name: string): (record: Option<DnsRecord>)
  {
    if records == [] then None
    else if Lower(records[0].recordType) == Lower("A") && NormalizeName(records[0].name) == name then Some(records[0])
    else FirstMatch(records[1..], name)
  }

  function ResolveA(records: seq<DnsRecord>, qname: string, suffix: string): (ip: Option<Ipv4>)
  {
    var name := NormalizeName(qname);
    if !EndsWith(name, "." + NormalizeSuffix(suffix)) then None
    else match FirstMatch(records, name)
         case None => None
         case Some(record) => ParseIpv4(record.value)
  }

  // ---------------------------------------------------------------- parsing

  function U16At(packet: Bytes, at: nat): (n: u16)
    requires at + 2 <= |packet|
  {
    256 * (packet[at] as int) + packet[at + 1] as int
  }

  function U16Bytes(n: u16): (s: Bytes)
    ensures |s| == 2
  {
    [n / 256, n % 256]
  }

  /** The labels from an offset on, and the offset behind the closing zero byte. `utf8` is the UTF-8
      decoder. A length byte with one of its two upper bits set is one of 64 or more. */
  function ParseLabels(utf8: Bytes -> Option<string>, packet: Bytes, offset: nat)
    : (r: Result<(seq<string>, nat), DnsError>)
    ensures r.Ok? ==> offset < r.value.1 <= |packet|
    decreases |packet| - offset
  {
    if offset >= |packet| then Err(NameTruncated)
    else
      var len := packet[offset];
      var start := offset + 1;
      if len == 0 then Ok(([], start))
      else if len >= 64 then Err(NameCompressed)
      else if start + len > |packet| then Err(BadLabelLength)
      else
        match utf8(packet[start..start + len])
        case None => Err(BadUtf8)
        case Some(text) =>
          match ParseLabels(utf8, packet, start + len)
          case Err(e) => Err(e)
          case Ok(rest) => Ok(([text] + rest.0, rest.1))
  }

  function Join(labels: seq<string>): (name: string)
  {
    if labels == [] then []
    else if |labels| == 1 then labels[0]
    else Join(labels[..|labels| - 1]) + "." + labels[|labels| - 1]
  }

  function ParseQuery(utf8: Bytes -> Option<string>, packet: Bytes): (r: Result<DnsQuery, DnsError>)
  {
    if |packet| < 12 then Err(TooShort)
    else if U16At(packet, 4) != 1 then Err(NotOneQuestion)
    else
      match ParseLabels(utf8, packet, 12)
      case Err(e) => Err(e)
      case Ok(name) =>
        var (labels, end) := name;
        if end + 4 > |packet| then Err(QuestionTruncated)
        else Ok(DnsQuery(U16At(packet, 0), Join(labels), U16At(packet, end), U16At(packet, end + 2), end + 4))
  }

  lemma {:induction false} LabelsContinue(utf8: Bytes -> Option<string>, packet: Bytes, labels: seq<string>,
                                          offset: nat)
    requires offset < |packet| && 0 < packet[offset] < 64 && offset + 1 + packet[offset] <= |packet|
    requires utf8(packet[offset + 1..offset + 1 + packet[offset]]).Some?
    ensures var text := utf8(packet[offset + 1..offset + 1 + packet[offset]]).value;
            Collected(utf8, packet, labels, offset)
            == Collected(utf8, packet, labels + [text], offset + 1 + packet[offset])
  {
    var text := utf8(packet[offset + 1..offset + 1 + packet[offset]]).value;
    var rest := ParseLabels(utf8, packet, offset + 1 + packet[offset]);
    if rest.Ok? {
      assert labels + ([text] + rest.value.0) == labels + [text] + rest.value.0;
    }
  }

  /** What the label loop has still to do: `labels` collected, the rest from `offset` on. */
  ghost function Collected(utf8: Bytes -> Option<string>, packet: Bytes, labels: seq<string>, offset: nat)
    : (r: Result<(seq<string>, nat), DnsError>)
  {
    match ParseLabels(utf8, packet, offset)
    case Err(e) => Err(e)
    case Ok(rest) => Ok((labels + rest.0, rest.1))
  }

  lemma CollectedStart(utf8: Bytes -> Option<string>, packet: Bytes)
    ensures Collected(utf8, packet, [], 12) == ParseLabels(utf8, packet, 12)
  {
    var r := ParseLabels(utf8, packet, 12);
    hide ParseLabels;
    if r.Ok? {
      assert [] + r.value.0 == r.value.0;
    }
  }

  /** Where the loop stops, and with what. */
  lemma CollectedStop(utf8: Bytes -> Option<string>, packet: Bytes, labels: seq<string>, offset: nat)
    ensures offset >= |packet| ==> Collected(utf8, packet, labels, offset) == Err(NameTruncated)
    ensures offset < |packet| ==>
              var len := packet[offset];
              && (len == 0 ==> Collected(utf8, packet, labels, offset) == Ok((labels, offset + 1)))
              && (len >= 64 ==> Collected(utf8, packet, labels, offset) == Err(NameCompressed))
              && (0 < len < 64 && offset + 1 + len > |packet| ==>
                    Collected(utf8, packet, labels, offset) == Err(BadLabelLength))
              && (0 < len < 64 && offset + 1 + len <= |packet| && utf8(packet[offset + 1..offset + 1 + len]).None? ==>
                    Collected(utf8, packet, labels, offset) == Err(BadUtf8))
  {
    assert labels + [] == labels;
  }

  /** `parse_query` as it runs: every read is in bounds and the label loop ends. */
  method ParseQueryLoop(utf8: Bytes -> Option<string>, packet: Bytes) returns (r: Result<DnsQuery, DnsError>)
    ensures r == ParseQuery(utf8, packet)
  {
    hide ParseLabels, Collected, Join, U16At;
    if |packet| < 12 {
      return Err(TooShort);
    }
    if U16At(packet, 4) != 1 {
      return Err(NotOneQuestion);
    }
    var offset := 12;
    var labels: seq<string> := [];
    CollectedStart(utf8, packet);
    while true
      invariant 12 <= offset <= |packet|
      invariant Collected(utf8, packet, labels, offset) == ParseLabels(utf8, packet, 12)
      decreases |packet| - offset
    {
      CollectedStop(utf8, packet, labels, offset);
      if offset >= |packet| {
        return Err(NameTruncated);
      }
      var len := packet[offset];
      if len == 0 {
        offset := offset + 1;
        break;
      }
      if len >= 64 {
        return Err(NameCompressed);
      }
      if offset + 1 + len > |packet| {
        return Err(BadLabelLength);
      }
      var text := utf8(packet[offset + 1..offset + 1 + len]);
      if text.None? {
        return Err(BadUtf8);
      }
      LabelsContinue(utf8, packet, labels, offset);
      labels := labels + [text.value];
      offset := offset + 1 + len;
    }
    assert ParseLabels(utf8, packet, 12) == Ok((labels, offset));
    if offset + 4 > |packet| {
      return Err(QuestionTruncated);
    }
    r := Ok(DnsQuery(U16At(packet, 0), Join(labels), U16At(packet, offset), U16At(packet, offset + 2), offset + 4));
  }

  // ---------------------------------------------------------------- responding

  function AnswerTo(records: seq<DnsRecord>, query: DnsQuery, suffix: string): (ip: Option<Ipv4>)
  {
    if query.qtype == TYPE_A && query.qclass == CLASS_IN then ResolveA(records, query.qname, suffix) else None
  }

  function Rcode(query: DnsQuery, answer: Option<Ipv4>): (rcode: byte)
    ensures rcode < 16
  {
    if query.qtype == TYPE_A then (if answer.Some? then 0 else RCODE_NXDOMAIN) else RCODE_NOTIMP
  }

  /** Pointer to offset 12, type, class, time to live 30, length 4, address. */
  function AnswerRecord(ip: Ipv4): (s: Bytes)
    ensures |s| == 16
  {
    U16Bytes(0xC00C) + U16Bytes(TYPE_A) + U16Bytes(CLASS_IN) + [0, 0, 0, 30] + U16Bytes(4) + [ip.a, ip.b, ip.c, ip.d]
  }

  function ResponseHeader(id: u16, rcode: byte, answers: u16): (s: Bytes)
    requires rcode < 16
    ensures |s| == 12
  {
    U16Bytes(id) + [0x84, 0x80 + rcode] + U16Bytes(1) + U16Bytes(answers) + U16Bytes(0) + U16Bytes(0)
  }

  /** A question section taken from the request, behind a header of its own and before the answer. */
  function ResponseFor(request: Bytes, query: DnsQuery, answer: Option<Ipv4>): (s: Bytes)
    requires 12 <= query.questionEnd <= |request|
  {
    ResponseHeader(query.id, Rcode(query, answer), if answer.Some? then 1 else 0)
    + request[12..query.questionEnd]
    + (match answer case Some(ip) => AnswerRecord(ip) case None => [])
  }

  /** `build_response` as it runs. */
  method BuildResponse(utf8: Bytes -> Option<string>, request: Bytes, records: seq<DnsRecord>, suffix: string)
    returns (r: Result<Bytes, DnsError>)
    ensures r.Err? <==> ParseQuery(utf8, request).Err?
    ensures r.Err? ==> r.error == ParseQuery(utf8, request).error
    ensures r.Ok? ==> var query := ParseQuery(utf8, request).value;
                      r.value == ResponseFor(request, query, AnswerTo(records, query, suffix))
  {
    var parsed := ParseQueryLoop(utf8, request);
    if parsed.Err? {
      return Err(parsed.error);
    }
    var query := parsed.value;
    var answer := if query.qtype == TYPE_A && query.qclass == CLASS_IN then ResolveA(records, query.qname, suffix)
                  else None;
    var rcode := Rcode(query, answer);
    var response: Bytes := U16Bytes(query.id);
    response := response + [0x84, 0x80 + rcode];
    response := response + U16Bytes(1);
    response := response + U16Bytes(if answer.Some? then 1 else 0);
    response := response + U16Bytes(0);
    response := response + U16Bytes(0);
    response := response + request[12..query.questionEnd];
    if answer.Some? {
      var ip := answer.value;
      response := response + AnswerRecord(ip);
    }
    assert answer.None? ==> response + [] == response;
    r := Ok(response);
  }

  // ---------------------------------------------------------------- a response parses like its request

  lemma SubSlice(p: Bytes, q: Bytes, a: nat, b: nat, c: nat, d: nat)
    requires a <= c <= d <= b <= |p| && b <= |q| && p[a..b] == q[a..b]
    ensures p[c..d] == q[c..d]
  {
    forall k | c <= k < d ensures p[k] == q[k] {
      assert p[a..b][k - a] == q[a..b][k - a];
    }
  }

  lemma {:induction false} LabelsAgree(utf8: Bytes -> Option<string>, p: Bytes, q: Bytes, offset: nat)
    requires ParseLabels(utf8, p, offset).Ok?
    requires var end := ParseLabels(utf8, p, offset).value.1; end <= |q| && p[offset..end] == q[offset..end]
    ensures ParseLabels(utf8, q, offset) == ParseLabels(utf8, p, offset)
    decreases |p| - offset
  {
    var end := ParseLabels(utf8, p, offset).value.1;
    var len, start := p[offset], offset + 1;
    assert q[offset] == q[offset..end][0] == p[offset..end][0];
    if len > 0 {
      SubSlice(p, q, offset, end, start, start + len);
      SubSlice(p, q, offset, end, start + len, end);
      LabelsAgree(utf8, p, q, start + len);
    }
  }

  lemma ResponseHeaderFields(id: u16, rcode: byte, answers: byte)
    requires rcode < 16
    ensures ResponseHeader(id, rcode, answers)
            == [id / 256, id % 256, 0x84, 0x80 + rcode, 0, 1, 0, answers, 0, 0, 0, 0]
  {
  }

  lemma AnswerRecordFields(ip: Ipv4)
    ensures AnswerRecord(ip) == [0xC0, 0x0C, 0, 1, 0, 1, 0, 0, 0, 30, 0, 4, ip.a, ip.b, ip.c, ip.d]
  {
  }

  /** The bytes of a response: the id, the flags of an authoritative answer with the response code, one
      question, one answer or none, the question as it came, and the answer record. */
  lemma ResponseParts(request: Bytes, query: DnsQuery, answer: Option<Ipv4>)
    requires 12 <= query.questionEnd <= |request|
    ensures var response := ResponseFor(request, query, answer);
            && |response| == query.questionEnd + (if answer.Some? then 16 else 0)
            && response[12..query.questionEnd] == request[12..query.questionEnd]
            && response[..12] == [query.id / 256, query.id % 256, 0x84, 0x80 + Rcode(query, answer), 0, 1,
                                  0, if answer.Some? then 1 else 0, 0, 0, 0, 0]
            && (answer.Some? ==>
                  response[query.questionEnd..]
                  == [0xC0, 0x0C, 0, 1, 0, 1, 0, 0, 0, 30, 0, 4,
                      answer.value.a, answer.value.b, answer.value.c, answer.value.d])
  {
    hide Rcode, AnswerRecord, ResponseHeader;
    var response := ResponseFor(request, query, answer);
    var answers: byte := if answer.Some? then 1 else 0;
    var header := ResponseHeader(query.id, Rcode(query, answer), answers);
    ResponseHeaderFields(query.id, Rcode(query, answer), answers);
    var question := request[12..query.questionEnd];
    var tail := match answer case Some(ip) => AnswerRecord(ip) case None => [];
    if answer.Some? {
      AnswerRecordFields(answer.value);
    }
    assert response == header + question + tail;
    assert response[..12] == header;
    assert response[12..query.questionEnd] == question;
    assert response[query.questionEnd..] == tail;
  }

  /** A message with the id and the question section of a request is parsed like that request. */
  lemma ParsesAlike(utf8: Bytes -> Option<string>, request: Bytes, response: Bytes)
    requires ParseQuery(utf8, request).Ok?
    requires var end := ParseQuery(utf8, request).value.questionEnd;
             |response| >= end && response[12..end] == request[12..end]
             && U16At(response, 0) == ParseQuery(utf8, request).value.id && U16At(response, 4) == 1
    ensures ParseQuery(utf8, response) == ParseQuery(utf8, request)
  {
    hide Join;
    var query := ParseQuery(utf8, request).value;
    var end := query.questionEnd - 4;
    SubSlice(request, response, 12, query.questionEnd, 12, end);
    LabelsAgree(utf8, request, response, 12);
    forall i | end <= i < query.questionEnd ensures response[i] == request[i] {
      assert response[i] == response[12..query.questionEnd][i - 12] == request[12..query.questionEnd][i - 12];
    }
  }

  /** Every response is itself accepted as a query with the request's id, name, type, class and question
      end, and is at most 16 bytes longer. It says that it is an authoritative response, with code 0 if
      the resolver answered, 3 if it did not and 4 for other types than A; it carries the question
      unchanged, and one answer exactly if the resolver answered: a pointer to offset 12, where the
      question name stands, type A, class IN, 30 seconds, and the address. */
  lemma ResponseReparses(utf8: Bytes -> Option<string>, request: Bytes, records: seq<DnsRecord>, suffix: string)
    requires ParseQuery(utf8, request).Ok?
    ensures var query := ParseQuery(utf8, request).value;
            var answer := if query.qtype == 1 && query.qclass == 1 then ResolveA(records, query.qname, suffix)
                          else None;
            var response := ResponseFor(request, query, AnswerTo(records, query, suffix));
            && ParseQuery(utf8, response) == Ok(query)
            && query.questionEnd <= |response| <= |request| + 16
            && response[..2] == request[..2]
            && response[2..4] == [0x84, if query.qtype != 1 then 0x84 else if answer.Some? then 0x80 else 0x83]
            && response[4..12] == [0, 1, 0, if answer.Some? then 1 else 0, 0, 0, 0, 0]
            && response[12..query.questionEnd] == request[12..query.questionEnd]
            && response[query.questionEnd..]
               == (if answer.None? then []
                   else [0xC0, 12, 0, 1, 0, 1, 0, 0, 0, 30, 0, 4,
                         answer.value.a, answer.value.b, answer.value.c, answer.value.d])
  {
    var query := ParseQuery(utf8, request).value;
    var answer := AnswerTo(records, query, suffix);
    var response := ResponseFor(request, query, answer);
    IdBytes(utf8, request);
    hide ResponseFor, ParseLabels, Join, ResolveA;
    ResponseParts(request, query, answer);
    var header := response[..12];
    assert response[0] == header[0] && response[1] == header[1] && response[4] == header[4] && response[5] == header[5];
    assert response[..2] == header[..2] && response[2..4] == header[2..4] && response[4..12] == header[4..];
    hide ParseQuery;
    ParsesAlike(utf8, request, response);
  }

  lemma IdBytes(utf8: Bytes -> Option<string>, request: Bytes)
    requires ParseQuery(utf8, request).Ok?
    ensures |request| >= 12
    ensures var id := ParseQuery(utf8, request).value.id; request[..2] == [id / 256, id % 256]
  {
    hide ParseLabels, Join;
  }

  // ---------------------------------------------------------------- what is parsed from a name

  lemma {:induction false} JoinCons(first: string, rest: seq<string>)
    requires rest != []
    ensures Join([first] + rest) == first + "." + Join(rest)
    decreases |rest|
  {
    var labels := [first] + rest;
    var n := |rest| - 1;
    assert labels[..|labels| - 1] == [first] + rest[..n] && labels[|labels| - 1] == rest[n];
    if n == 0 {
      assert [first] + rest[..0] == [first];
    } else {
      JoinCons(first, rest[..n]);
    }
  }

  /** A name is its parts between dots, joined. */
  lemma {:induction false} JoinSplit(name: string)
    ensures Join(SplitDots(name)) == name
  {
    if name != [] {
      var rest := SplitDots(name[1..]);
      JoinSplit(name[1..]);
      if name[0] == '.' {
        JoinCons([], rest);
      } else if |rest| > 1 {
        assert rest == [rest[0]] + rest[1..];
        JoinCons(rest[0], rest[1..]);
        JoinCons([name[0]] + rest[0], rest[1..]);
      } else {
        assert [[name[0]] + rest[0]] + rest[1..] == [[name[0]] + rest[0]];
      }
    }
  }

  /** Labels on the wire (section 3.1 of RFC 1035): each with its length before it, and a zero at the end. */
  function WriteLabels(encode: string -> Bytes, labels: seq<string>): (s: Bytes)
    requires forall t :: t in labels ==> |encode(t)| < 256
  {
    if labels == [] then [0] else [|encode(labels[0])|] + encode(labels[0]) + WriteLabels(encode, labels[1..])
  }

  /** The encoding of a label is 1 to 63 bytes and is decoded to it. */
  ghost predicate Encodes(utf8: Bytes -> Option<string>, encode: string -> Bytes, labels: seq<string>)
  {
    forall t :: t in labels ==> 1 <= |encode(t)| <= 63 && utf8(encode(t)) == Some(t)
  }

  lemma {:induction false} WrittenLabelsParse(utf8: Bytes -> Option<string>, encode: string -> Bytes,
                                              labels: seq<string>, packet: Bytes, offset: nat)
    requires Encodes(utf8, encode, labels)
    requires var written := WriteLabels(encode, labels);
             offset + |written| <= |packet| && packet[offset..offset + |written|] == written
    ensures ParseLabels(utf8, packet, offset) == Ok((labels, offset + |WriteLabels(encode, labels)|))
    decreases |labels|
  {
    if labels == [] {
      assert packet[offset] == packet[offset..offset + 1][0];
    } else {
      var text, rest := encode(labels[0]), WriteLabels(encode, labels[1..]);
      assert labels[0] in labels;
      SliceParts(packet, offset, |text|, text, rest);
      var next := offset + 1 + |text|;
      WrittenLabelsParse(utf8, encode, labels[1..], packet, next);
      hide ParseLabels, WriteLabels, Encodes;
      OneLabelParses(utf8, packet, offset, text, labels[0], labels[1..], next + |rest|);
      assert [labels[0]] + labels[1..] == labels;
    }
  }

  lemma SliceParts(packet: Bytes, offset: nat, n: byte, text: Bytes, rest: Bytes)
    requires offset + 1 + |text| + |rest| <= |packet|
    requires packet[offset..offset + 1 + |text| + |rest|] == [n] + text + rest
    ensures packet[offset] == n && packet[offset + 1..offset + 1 + |text|] == text
    ensures packet[offset + 1 + |text|..offset + 1 + |text| + |rest|] == rest
  {
    var whole := [n] + text + rest;
    forall i | 0 <= i < |whole| ensures packet[offset + i] == whole[i] {
      assert packet[offset..offset + 1 + |text| + |rest|][i] == whole[i];
    }
    forall i | 0 <= i < |text| ensures packet[offset + 1 + i] == text[i] {
      assert whole[1 + i] == text[i];
    }
    forall i | 0 <= i < |rest| ensures packet[offset + 1 + |text| + i] == rest[i] {
      assert whole[1 + |text| + i] == rest[i];
    }
  }

  lemma OneLabelParses(utf8: Bytes -> Option<string>, packet: Bytes, offset: nat, text: Bytes, label': string,
                       rest: seq<string>, end: nat)
    requires offset < |packet| && 1 <= |text| <= 63 && packet[offset] == |text| && offset + 1 + |text| <= |packet|
    requires packet[offset + 1..offset + 1 + |text|] == text && utf8(text) == Some(label')
    requires ParseLabels(utf8, packet, offset + 1 + |text|) == Ok((rest, end))
    ensures ParseLabels(utf8, packet, offset) == Ok(([label'] + rest, end))
  {
  }

  /** A request: the id, two bytes of flags, one question, six bytes of further counts, the name, the type
      and the class. */
  function WriteRequest(encode: string -> Bytes, id: u16, flags: Bytes, counts: Bytes, name: string, qtype: u16,
                        qclass: u16)
    : (s: Bytes)
    requires |flags| == 2 && |counts| == 6 && forall t :: t in SplitDots(name) ==> |encode(t)| < 256
  {
    [id / 256, id % 256] + flags + [0, 1] + counts
    + WriteLabels(encode, SplitDots(name)) + [qtype / 256, qtype % 256, qclass / 256, qclass % 256]
  }

  /** What a written request says is what is parsed: the id, the name, the type, the class, and where the
      question ends, whatever follows it. */
  lemma WrittenRequestParses(utf8: Bytes -> Option<string>, encode: string -> Bytes, id: u16, flags: Bytes,
                             counts: Bytes,
                             name: string, qtype: u16, qclass: u16, rest: Bytes)
    requires |flags| == 2 && |counts| == 6 && Encodes(utf8, encode, SplitDots(name))
    ensures var request := WriteRequest(encode, id, flags, counts, name, qtype, qclass);
            ParseQuery(utf8, request + rest) == Ok(DnsQuery(id, name, qtype, qclass, |request|))
  {
    hide Join, SplitDots, ParseLabels, WriteLabels, U16At, ParseQuery;
    var header := [id / 256, id % 256] + flags + [0, 1] + counts;
    var labels := WriteLabels(encode, SplitDots(name));
    var question := [qtype / 256, qtype % 256, qclass / 256, qclass % 256];
    JoinSplit(name);
    WordsAt(id, flags, counts, qtype, qclass);
    RequestAt(header, labels, question, rest);
    WrittenLabelsParse(utf8, encode, SplitDots(name), header + labels + question + rest, 12);
    PartsParse(utf8, header, labels, question, rest, SplitDots(name));
  }

  lemma PartsParse(utf8: Bytes -> Option<string>, header: Bytes, written: Bytes, question: Bytes, rest: Bytes,
                   labels: seq<string>)
    requires |header| == 12 && |question| == 4 && U16At(header, 4) == 1
    requires ParseLabels(utf8, header + written + question + rest, 12) == Ok((labels, 12 + |written|))
    ensures ParseQuery(utf8, header + written + question + rest)
            == Ok(DnsQuery(U16At(header, 0), Join(labels), U16At(question, 0), U16At(question, 2), 12 + |written| + 4))
  {
    hide Join, ParseLabels, U16At;
    RequestAt(header, written, question, rest);
  }

  lemma WordsAt(id: u16, flags: Bytes, counts: Bytes, qtype: u16, qclass: u16)
    requires |flags| == 2 && |counts| == 6
    ensures var header := [id / 256, id % 256] + flags + [0, 1] + counts;
            |header| == 12 && U16At(header, 0) == id && U16At(header, 4) == 1
    ensures var question := [qtype / 256, qtype % 256, qclass / 256, qclass % 256];
            U16At(question, 0) == qtype && U16At(question, 2) == qclass
  {
    var header := [id / 256, id % 256] + flags + [0, 1] + counts;
    assert header[0] == id / 256 && header[1] == id % 256 && header[4] == 0 && header[5] == 1;
  }

  /** Where the parts of a request stand. */
  lemma RequestAt(header: Bytes, labels: Bytes, question: Bytes, rest: Bytes)
    requires |header| == 12 && |question| == 4
    ensures var packet, end := header + labels + question + rest, 12 + |labels|;
            && packet[12..end] == labels
            && U16At(packet, 0) == U16At(header, 0) && U16At(packet, 4) == U16At(header, 4)
            && U16At(packet, end) == U16At(question, 0) && U16At(packet, end + 2) == U16At(question, 2)
  {
    var packet, end := header + labels + question + rest, 12 + |labels|;
    assert packet[0] == header[0] && packet[1] == header[1] && packet[4] == header[4] && packet[5] == header[5];
    assert packet[end] == question[0] && packet[end + 1] == question[1];
    assert packet[end + 2] == question[2] && packet[end + 3] == question[3];
  }

  /** Conversely, whatever is accepted was written so: between the header and the type stand the labels of the
      name, each of 1 to 63 bytes with its length before it, and a zero. */
  lemma {:induction false} AcceptedLabelsAreWritten(utf8: Bytes -> Option<string>, packet: Bytes, offset: nat)
    returns (parts: seq<Bytes>)
    requires ParseLabels(utf8, packet, offset).Ok?
    ensures var (labels, end) := ParseLabels(utf8, packet, offset).value;
            && |parts| == |labels| && packet[offset..end] == Prefixed(parts)
            && forall i :: 0 <= i < |parts| ==> 1 <= |parts[i]| <= 63 && utf8(parts[i]) == Some(labels[i])
    decreases |packet| - offset
  {
    var len, start := packet[offset], offset + 1;
    var end := ParseLabels(utf8, packet, offset).value.1;
    if len == 0 {
      parts := [];
    } else {
      var first := packet[start..start + len];
      var rest := AcceptedLabelsAreWritten(utf8, packet, start + len);
      parts := [first] + rest;
      assert parts[1..] == rest;
      hide ParseLabels;
      SliceJoin(packet, offset, start + len, end);
    }
  }

  lemma SliceJoin(packet: Bytes, offset: nat, next: nat, end: nat)
    requires offset < next <= end <= |packet|
    ensures packet[offset..end] == [packet[offset]] + packet[offset + 1..next] + packet[next..end]
  {
  }

  function Prefixed(parts: seq<Bytes>): (s: Bytes)
  {
    if parts == [] then [0] else [|parts[0]| % 256] + parts[0] + Prefixed(parts[1..])
  }

  /** A message is accepted exactly if it has 12 bytes, one question, a name that can be read and four bytes
      behind it; the first of these that fails is reported. */
  lemma AcceptedExactlyWhen(utf8: Bytes -> Option<string>, packet: Bytes)
    ensures var r := ParseQuery(utf8, packet);
            if |packet| < 12 then r == Err(TooShort)
            else if packet[4..6] != [0, 1] then r == Err(NotOneQuestion)
            else if ParseLabels(utf8, packet, 12).Err? then r == Err(ParseLabels(utf8, packet, 12).error)
            else if ParseLabels(utf8, packet, 12).value.1 + 4 > |packet| then r == Err(QuestionTruncated)
            else r.Ok? && r.value.questionEnd == ParseLabels(utf8, packet, 12).value.1 + 4
  {
    hide ParseLabels, Join;
  }
}
