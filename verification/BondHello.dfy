// The bond control lines: hello V1 and V2, acknowledgement and rejection.
module BondHello {
  import opened Prelude
  import opened GoText
  import opened KcpProfile

  const V1_TOKEN := "VKTURNBOND/1"
  const V2_TOKEN := "VKTURNBOND/2"
  const V2_OK := "OK"
  const V2_ERROR := "ERR"
  const MAX_RECORD := 256
  const MAX_BOND_PATHS := 64

  datatype Hello = Hello(
    version: int,
    bondId: string,
    expectedPaths: int,
    mtu: int,
    fecData: int,
    fecParity: int)

  datatype HelloError =
    | RecordTooLong
    | Unterminated
    | MissingHello
    | FieldCount
    | BadNumber(raw: string)
    | UnknownProtocol(token: string)
    | InvalidHello

  datatype Result<+T> = Ok(value: T) | Err(error: HelloError)

  datatype Ack = Accepted | Rejected(code: string) | Unexpected

  // ---- Validation ---------------------------------------------------------

  predicate HexChar(c: char) {
    'a' <= c <= 'f' || 'A' <= c <= 'F' || '0' <= c <= '9'
  }

  predicate ValidBondId(id: string) {
    8 <= |id| <= 64 && forall i :: 0 <= i < |id| ==> HexChar(id[i])
  }

  predicate CodeChar(c: char) {
    'A' <= c <= 'Z' || '0' <= c <= '9' || c == '_'
  }

  predicate ValidCode(code: string) {
    1 <= |code| <= 32 && forall i :: 0 <= i < |code| ==> CodeChar(code[i])
  }

  predicate ValidHello(h: Hello) {
    && ValidBondId(h.bondId)
    && if h.version == 1 then h.expectedPaths == 0 && h.mtu == 0 && h.fecData == 0 && h.fecParity == 0
       else if h.version == 2 then
         && 1 <= h.expectedPaths <= MAX_BOND_PATHS
         && ValidFec(h.fecData, h.fecParity)
         && MIN_KCP_MTU <= h.mtu <= MaxKcpMtu(h.fecData, h.fecParity)
       else false
  }

  // ---- Writing ------------------------------------------------------------

  function Words(h: Hello): seq<string> {
    if h.version == 1 then [V1_TOKEN, h.bondId]
    else [V2_TOKEN, h.bondId, Itoa(h.expectedPaths), Itoa(h.mtu), Itoa(h.fecData), Itoa(h.fecParity)]
  }

  // writeBondControlLine refuses a record that is too long or unterminated.
  function WriteLine(line: string): Option<string> {
    if |line| > MAX_RECORD || line == "" || line[|line| - 1] != '\n' then None else Some(line)
  }

  function WriteHello(h: Hello): Option<string> {
    if !ValidHello(h) then None else WriteLine(Unfields(Words(h)) + "\n")
  }

  function WriteAck(): Option<string> {
    WriteLine("VKTURNBOND/2 OK\n")
  }

  function WriteReject(code: string): Option<string> {
    if !ValidCode(code) then None else WriteLine(Unfields([V2_TOKEN, V2_ERROR, code]) + "\n")
  }

  // ---- Reading ------------------------------------------------------------

  // readBondControlLine on the record the transport delivered.
  function ReadLine(record: string): Result<string> {
    if |record| > MAX_RECORD then Err(RecordTooLong)
    else if record == "" || record[|record| - 1] != '\n' then Err(Unterminated)
    else Ok(TrimSpace(record))
  }

  function ParseNumbers(raw: seq<string>): (r: Result<seq<int>>)
    ensures r.Ok? ==> |r.value| == |raw|
  {
    if raw == [] then Ok([])
    else match Atoi(raw[0])
      case None => Err(BadNumber(raw[0]))
      case Some(n) =>
        match ParseNumbers(raw[1..])
        case Err(e) => Err(e)
        case Ok(ns) => Ok([n] + ns)
  }

  function Checked(h: Hello): Result<Hello> {
    if ValidHello(h) then Ok(h) else Err(InvalidHello)
  }

  function ParseFields(fields: seq<string>): Result<Hello> {
    if fields == [] then Err(MissingHello)
    else if fields[0] == V1_TOKEN then
      if |fields| != 2 then Err(FieldCount) else Checked(Hello(1, fields[1], 0, 0, 0, 0))
    else if fields[0] == V2_TOKEN then
      if |fields| != 6 then Err(FieldCount)
      else match ParseNumbers(fields[2..])
        case Err(e) => Err(e)
        case Ok(ns) => Checked(Hello(2, fields[1], ns[0], ns[1], ns[2], ns[3]))
    else Err(UnknownProtocol(fields[0]))
  }

  function ReadHello(record: string): Result<Hello> {
    match ReadLine(record)
    case Err(e) => Err(e)
    case Ok(line) => ParseFields(Fields(line))
  }

  function ReadAck(record: string): Ack {
    match ReadLine(record)
    case Err(_) => Unexpected
    case Ok(line) =>
      var fields := Fields(line);
      if line == "VKTURNBOND/2 OK" then Accepted
      else if |fields| == 3 && fields[0] == V2_TOKEN && fields[1] == V2_ERROR && ValidCode(fields[2]) then
        Rejected(fields[2])
      else Unexpected
  }

  // ---- Proofs -------------------------------------------------------------

  // A line of plain words, terminated, reads back as exactly those words.
  lemma WordsReadBack(ws: seq<string>)
    requires ws != [] && forall i :: 0 <= i < |ws| ==> Plain(ws[i])
    requires |Unfields(ws)| < MAX_RECORD
    ensures WriteLine(Unfields(ws) + "\n") == Some(Unfields(ws) + "\n")
    ensures ReadLine(Unfields(ws) + "\n") == Ok(Unfields(ws))
    ensures Fields(Unfields(ws)) == ws
  {
    UnfieldsEnds(ws);
    TrimLine(Unfields(ws));
    FieldsUnfields(ws);
  }

  lemma WordsPlain(h: Hello)
    requires ValidHello(h)
    ensures forall i :: 0 <= i < |Words(h)| ==> Plain(Words(h)[i])
  {
    assert Plain(h.bondId);
    if h.version == 2 {
      ItoaPlain(h.expectedPaths);
      ItoaPlain(h.mtu);
      ItoaPlain(h.fecData);
      ItoaPlain(h.fecParity);
    }
  }

  lemma UnfieldsCons(w: string, rest: seq<string>)
    requires rest != []
    ensures |Unfields([w] + rest)| == |w| + 1 + |Unfields(rest)|
  {
    assert ([w] + rest)[1..] == rest;
  }

  lemma WordsShort(h: Hello)
    requires ValidHello(h)
    ensures |Unfields(Words(h))| <= 97
  {
    if h.version == 1 {
      UnfieldsCons(V1_TOKEN, [h.bondId]);
      assert Words(h) == [V1_TOKEN] + [h.bondId];
    } else {
      ItoaShort(h.expectedPaths);
      ItoaShort(h.mtu);
      ItoaShort(h.fecData);
      ItoaShort(h.fecParity);
      var ws := Words(h);
      assert ws[4..] == [ws[4]] + [ws[5]];
      assert ws[3..] == [ws[3]] + ws[4..] && ws[2..] == [ws[2]] + ws[3..];
      assert ws[1..] == [ws[1]] + ws[2..] && ws == [ws[0]] + ws[1..];
      UnfieldsCons(ws[4], [ws[5]]);
      UnfieldsCons(ws[3], ws[4..]);
      UnfieldsCons(ws[2], ws[3..]);
      UnfieldsCons(ws[1], ws[2..]);
      UnfieldsCons(ws[0], ws[1..]);
    }
  }

  lemma {:induction false} ParseNumbersAll(raw: seq<string>, ns: seq<int>)
    requires |raw| == |ns| && forall i :: 0 <= i < |raw| ==> Atoi(raw[i]) == Some(ns[i])
    ensures ParseNumbers(raw) == Ok(ns)
  {
    if raw != [] {
      assert Atoi(raw[0]) == Some(ns[0]);
      ParseNumbersAll(raw[1..], ns[1..]);
      assert ns == [ns[0]] + ns[1..];
    }
  }

  lemma ParseV2(id: string, a: string, b: string, c: string, d: string, h: Hello)
    requires Atoi(a) == Some(h.expectedPaths) && Atoi(b) == Some(h.mtu)
    requires Atoi(c) == Some(h.fecData) && Atoi(d) == Some(h.fecParity)
    requires h.version == 2 && h.bondId == id
    ensures ParseFields([V2_TOKEN, id, a, b, c, d]) == Checked(h)
  {
    var fields := [V2_TOKEN, id, a, b, c, d];
    assert V2_TOKEN[11] != V1_TOKEN[11];
    assert fields[2..] == [a, b, c, d];
    ParseNumbersAll([a, b, c, d], [h.expectedPaths, h.mtu, h.fecData, h.fecParity]);
  }

  lemma ParseWords(h: Hello)
    requires ValidHello(h)
    ensures ParseFields(Words(h)) == Ok(h)
  {
    if h.version == 2 {
      AtoiItoa(h.expectedPaths);
      AtoiItoa(h.mtu);
      AtoiItoa(h.fecData);
      AtoiItoa(h.fecParity);
      ParseV2(h.bondId, Itoa(h.expectedPaths), Itoa(h.mtu), Itoa(h.fecData), Itoa(h.fecParity), h);
    }
  }

  // The two wire formats of the protocol description.
  lemma HelloWireFormat(h: Hello)
    requires ValidHello(h)
    ensures h.version == 1 ==> WriteHello(h) == Some(V1_TOKEN + " " + h.bondId + "\n")
    ensures h.version == 2 ==>
              WriteHello(h) == Some(V2_TOKEN + " " + (h.bondId + " " +
                                    (Itoa(h.expectedPaths) + " " + (Itoa(h.mtu) + " " +
                                    (Itoa(h.fecData) + " " + Itoa(h.fecParity))))) + "\n")
  {
    WordsShort(h);
    var ws := Words(h);
    if h.version == 1 {
      assert ws[1..] == [h.bondId];
    } else {
      var a, b, c, d := Itoa(h.expectedPaths), Itoa(h.mtu), Itoa(h.fecData), Itoa(h.fecParity);
      assert ws[1..] == [h.bondId, a, b, c, d] && [h.bondId, a, b, c, d][1..] == [a, b, c, d];
      assert [a, b, c, d][1..] == [b, c, d] && [b, c, d][1..] == [c, d] && [c, d][1..] == [d];
      assert Unfields([c, d]) == c + " " + d;
      assert Unfields([b, c, d]) == b + " " + Unfields([c, d]);
      assert Unfields([a, b, c, d]) == a + " " + Unfields([b, c, d]);
      assert Unfields([h.bondId, a, b, c, d]) == h.bondId + " " + Unfields([a, b, c, d]);
    }
  }

  // Exactly the valid hellos are written; each fits in one record and reads back
  // as it was.
  lemma HelloRoundTrip(h: Hello)
    ensures WriteHello(h).Some? <==> ValidHello(h)
    ensures ValidHello(h) ==> |WriteHello(h).value| <= MAX_RECORD && ReadHello(WriteHello(h).value) == Ok(h)
  {
    if ValidHello(h) {
      WordsPlain(h);
      WordsShort(h);
      WordsReadBack(Words(h));
      ParseWords(h);
    }
  }

  // Whatever record is accepted as a hello carries a valid one, and writing it
  // again gives a record that reads the same.
  lemma AcceptedHelloRewrites(record: string)
    requires ReadHello(record).Ok?
    ensures ValidHello(ReadHello(record).value)
    ensures WriteHello(ReadHello(record).value).Some?
    ensures ReadHello(WriteHello(ReadHello(record).value).value) == ReadHello(record)
  {
    HelloRoundTrip(ReadHello(record).value);
  }

  lemma RejectWords(code: string)
    requires ValidCode(code)
    ensures var ws := [V2_TOKEN, V2_ERROR, code];
            (forall i :: 0 <= i < |ws| ==> Plain(ws[i])) && |Unfields(ws)| <= 49
  {
    var ws := [V2_TOKEN, V2_ERROR, code];
    assert Plain(code);
    assert ws == [V2_TOKEN] + ([V2_ERROR] + [code]);
    UnfieldsCons(V2_TOKEN, [V2_ERROR] + [code]);
    UnfieldsCons(V2_ERROR, [code]);
  }

  lemma AckLine()
    ensures ReadLine("VKTURNBOND/2 OK\n") == Ok("VKTURNBOND/2 OK")
  {
    var s := "VKTURNBOND/2 OK";
    assert s + "\n" == "VKTURNBOND/2 OK\n";
    TrimLine(s);
  }

  // The server's answers read back as what was sent.
  lemma AckRoundTrip()
    ensures WriteAck().Some? && ReadAck(WriteAck().value) == Accepted
  {
    AckLine();
  }

  lemma RejectRoundTrip(code: string)
    ensures WriteReject(code).Some? <==> ValidCode(code)
    ensures ValidCode(code) ==>
              |WriteReject(code).value| <= MAX_RECORD && ReadAck(WriteReject(code).value) == Rejected(code)
  {
    if ValidCode(code) {
      var ws := [V2_TOKEN, V2_ERROR, code];
      RejectWords(code);
      WordsReadBack(ws);
      AckWords();
      assert Unfields(ws) != "VKTURNBOND/2 OK";
    }
  }

  lemma AckWords()
    ensures Fields("VKTURNBOND/2 OK") == [V2_TOKEN, V2_OK]
  {
    assert [V2_TOKEN, V2_OK][1..] == [V2_OK];
    assert Unfields([V2_TOKEN, V2_OK]) == "VKTURNBOND/2 OK";
    FieldsUnfields([V2_TOKEN, V2_OK]);
  }

  lemma ShortV2IsNoHello(fields: seq<string>)
    requires |fields| in {2, 3} && fields[0] == V2_TOKEN
    ensures ParseFields(fields) == Err(FieldCount)
  {
    assert V2_TOKEN[11] != V1_TOKEN[11];
  }

  // No record is both a hello and an answer.
  lemma HelloIsNeverAnAnswer(record: string)
    ensures ReadHello(record).Err? || ReadAck(record) == Unexpected
  {
    if ReadAck(record) != Unexpected {
      var fields := Fields(ReadLine(record).value);
      AckWords();
      assert fields == [V2_TOKEN, V2_OK] || (|fields| == 3 && fields[0] == V2_TOKEN);
      ShortV2IsNoHello(fields);
    }
  }

  // ---- Exactly what is accepted -------------------------------------------

  // A record is read as an acknowledgement exactly if it is terminated, fits and says
  // so up to white space around it.
  lemma AcceptedExactly(record: string)
    ensures ReadAck(record) == Accepted <==>
              && record != "" && |record| <= 256 && record[|record| - 1] == '\n'
              && TrimSpace(record) == "VKTURNBOND/2 OK"
  {
  }

  // And as a rejection exactly if it has the three words.
  lemma RejectedExactly(record: string, code: string)
    ensures ReadAck(record) == Rejected(code) <==>
              && record != "" && |record| <= 256 && record[|record| - 1] == '\n'
              && Fields(TrimSpace(record)) == ["VKTURNBOND/2", "ERR", code]
              && 1 <= |code| <= 32
              // capital letters, digits and underscores, by their codes
              && forall i :: 0 <= i < |code| ==>
                   var c := code[i] as int; 65 <= c <= 90 || 48 <= c <= 57 || c == 95
  {
    if TrimSpace(record) == "VKTURNBOND/2 OK" {
      AckWords();
    }
  }

  lemma HexChars(id: string)
    ensures forall i :: 0 <= i < |id| ==> (HexChar(id[i]) <==> id[i] in "0123456789abcdefABCDEF")
  {
  }


  // The words of a hello record mean this hello.
  predicate Says(words: seq<string>, h: Hello) {
    || (words == ["VKTURNBOND/1", h.bondId] && h == Hello(1, h.bondId, 0, 0, 0, 0))
    || (&& |words| == 6 && words[0] == "VKTURNBOND/2" && words[1] == h.bondId && h.version == 2
        && Atoi(words[2]) == Some(h.expectedPaths) && Atoi(words[3]) == Some(h.mtu)
        && Atoi(words[4]) == Some(h.fecData) && Atoi(words[5]) == Some(h.fecParity))
  }

  lemma {:induction false} NumbersMean(raw: seq<string>)
    ensures match ParseNumbers(raw)
            case Ok(ns) => |ns| == |raw| && forall i :: 0 <= i < |raw| ==> Atoi(raw[i]) == Some(ns[i])
            case Err(_) => exists i :: 0 <= i < |raw| && Atoi(raw[i]) == None
  {
    if raw != [] && Atoi(raw[0]).Some? {
      NumbersMean(raw[1..]);
      if ParseNumbers(raw[1..]).Err? {
        var i :| 0 <= i < |raw[1..]| && Atoi(raw[1..][i]) == None;
        assert Atoi(raw[i + 1]) == None;
      }
    }
  }

  lemma V2FieldsSay(fields: seq<string>, h: Hello)
    requires |fields| == 6 && fields[0] == V2_TOKEN && ParseFields(fields) == Ok(h)
    ensures Says(fields, h) && ValidHello(h)
  {
    assert V2_TOKEN[11] != V1_TOKEN[11];
    var raw := fields[2..];
    NumbersMean(raw);
    assert raw[0] == fields[2] && raw[1] == fields[3] && raw[2] == fields[4] && raw[3] == fields[5];
  }

  lemma V2FieldsMean(fields: seq<string>, h: Hello)
    requires |fields| == 6 && fields[0] == V2_TOKEN
    ensures ParseFields(fields) == Ok(h) <==> Says(fields, h) && ValidHello(h)
  {
    if ParseFields(fields) == Ok(h) {
      V2FieldsSay(fields, h);
    } else if Says(fields, h) {
      assert fields[0] != "VKTURNBOND/1" by { assert V2_TOKEN[11] != V1_TOKEN[11]; }
      assert fields == [V2_TOKEN, fields[1], fields[2], fields[3], fields[4], fields[5]];
      ParseV2(fields[1], fields[2], fields[3], fields[4], fields[5], h);
    }
  }

  lemma FieldsMean(fields: seq<string>, h: Hello)
    ensures ParseFields(fields) == Ok(h) <==> Says(fields, h) && ValidHello(h)
  {
    if |fields| == 6 && fields[0] == V2_TOKEN {
      V2FieldsMean(fields, h);
    } else if |fields| == 2 && fields[0] == V1_TOKEN {
      assert fields == [V1_TOKEN, fields[1]];
    }
  }

  // A record is accepted as a hello exactly if it is terminated, fits, says that hello
  // and the hello is valid.
  lemma HelloAcceptedExactly(record: string, h: Hello)
    ensures ReadHello(record) == Ok(h) <==>
              && record != "" && |record| <= 256 && record[|record| - 1] == '\n'
              && Says(Fields(TrimSpace(record)), h) && ValidHello(h)
  {
    FieldsMean(Fields(TrimSpace(record)), h);
  }

  // What a valid hello is, in numbers.
  lemma ValidHelloMeans(h: Hello)
    ensures ValidHello(h) <==>
              && 8 <= |h.bondId| <= 64 && (forall i :: 0 <= i < |h.bondId| ==> h.bondId[i] in "0123456789abcdefABCDEF")
              && (|| (h.version == 1 && h.expectedPaths == h.mtu == h.fecData == h.fecParity == 0)
                  || (h.version == 2 && 1 <= h.expectedPaths <= 64 && 50 <= h.mtu &&
                      (|| (h.fecData == h.fecParity == 0 && h.mtu <= 1480)
                       || (h.fecData >= 1 && h.fecParity >= 1 && h.fecData + h.fecParity <= 256 && h.mtu <= 1472))))
  {
    HexChars(h.bondId);
  }

  // ---- Exactly what is wrong ----------------------------------------------

  // The record is terminated and fits, and these are its words.
  predicate Framed(record: string, words: seq<string>) {
    record != "" && |record| <= 256 && record[|record| - 1] == '\n' && words == Fields(TrimSpace(record))
  }

  // w is the first of the words from i on that is no number.
  predicate FirstBad(words: seq<string>, i: nat, w: string)
    decreases |words| - i
  {
    i < |words| && if Atoi(words[i]) == None then w == words[i] else FirstBad(words, i + 1, w)
  }

  lemma {:induction false} BadNumbers(words: seq<string>, i: nat, e: HelloError)
    requires i <= |words|
    ensures ParseNumbers(words[i..]) == Err(e) <==> e.BadNumber? && FirstBad(words, i, e.raw)
    decreases |words| - i
  {
    if i < |words| {
      BadNumbers(words, i + 1, e);
      assert words[i..][0] == words[i] && words[i..][1..] == words[i + 1..];
    } else {
      assert words[i..] == [];
    }
  }

  // What a refused record is refused for.
  ghost predicate Wrong(record: string, words: seq<string>, e: HelloError) {
    match e
    case RecordTooLong => |record| > 256
    case Unterminated => |record| <= 256 && (record == "" || record[|record| - 1] != '\n')
    case MissingHello => Framed(record, words) && words == []
    case UnknownProtocol(token) =>
      Framed(record, words) && words != [] && token == words[0] && token !in {"VKTURNBOND/1", "VKTURNBOND/2"}
    case FieldCount =>
      && Framed(record, words) && words != []
      && ((words[0] == "VKTURNBOND/1" && |words| != 2) || (words[0] == "VKTURNBOND/2" && |words| != 6))
    case BadNumber(raw) =>
      Framed(record, words) && |words| == 6 && words[0] == "VKTURNBOND/2" && FirstBad(words, 2, raw)
    case InvalidHello => Framed(record, words) && exists h :: Says(words, h) && !ValidHello(h)
  }

  lemma FieldsWrong(record: string, words: seq<string>, e: HelloError)
    requires Framed(record, words)
    ensures ParseFields(words) == Err(e) <==> Wrong(record, words, e)
  {
    assert V2_TOKEN[11] != V1_TOKEN[11];
    if |words| == 6 && words[0] == V2_TOKEN {
      V2Wrong(record, words, e);
    } else if |words| == 2 && words[0] == V1_TOKEN {
      assert Says(words, Hello(1, words[1], 0, 0, 0, 0));
    }
  }

  // The numbers of a V2 record determine the hello it says.
  lemma SaysOnly(words: seq<string>, ns: seq<int>, h: Hello)
    requires |words| == 6 && words[0] == V2_TOKEN && |ns| == 4
    requires Atoi(words[2]) == Some(ns[0]) && Atoi(words[3]) == Some(ns[1])
    requires Atoi(words[4]) == Some(ns[2]) && Atoi(words[5]) == Some(ns[3])
    ensures Says(words, h) <==> h == Hello(2, words[1], ns[0], ns[1], ns[2], ns[3])
  {
    assert V2_TOKEN[11] != V1_TOKEN[11];
  }

  lemma V2Parses(words: seq<string>)
    requires |words| == 6 && words[0] == V2_TOKEN
    ensures match ParseNumbers(words[2..])
            case Err(e) => ParseFields(words) == Err(e)
            case Ok(ns) => |ns| == 4 && ParseFields(words) == Checked(Hello(2, words[1], ns[0], ns[1], ns[2], ns[3]))
  {
    assert V2_TOKEN[11] != V1_TOKEN[11];
  }

  lemma V2Wrong(record: string, words: seq<string>, e: HelloError)
    requires Framed(record, words) && |words| == 6 && words[0] == V2_TOKEN
    ensures ParseFields(words) == Err(e) <==> Wrong(record, words, e)
  {
    V2Parses(words);
    match ParseNumbers(words[2..])
    case Err(f) => NumberWrong(record, words, e, f);
    case Ok(ns) => ValueWrong(record, words, e, ns);
  }

  lemma NobodySays(words: seq<string>, i: nat, h: Hello)
    requires |words| == 6 && words[0] == V2_TOKEN && 2 <= i < 6 && Atoi(words[i]) == None
    ensures !Says(words, h)
  {
    assert V2_TOKEN[11] != V1_TOKEN[11];
    assert i == 2 || i == 3 || i == 4 || i == 5;
  }

  lemma NotANumber(words: seq<string>) returns (i: nat)
    requires |words| == 6 && ParseNumbers(words[2..]).Err?
    ensures 2 <= i < 6 && Atoi(words[i]) == None
  {
    NumbersMean(words[2..]);
    var k :| 0 <= k < |words[2..]| && Atoi(words[2..][k]) == None;
    i := k + 2;
  }

  lemma NumberWrong(record: string, words: seq<string>, e: HelloError, f: HelloError)
    requires Framed(record, words) && |words| == 6 && words[0] == V2_TOKEN && ParseNumbers(words[2..]) == Err(f)
    ensures e == f <==> Wrong(record, words, e)
  {
    BadNumbers(words, 2, e);
    var i := NotANumber(words);
    forall h
      ensures !Says(words, h)
    {
      NobodySays(words, i, h);
    }
    assert V2_TOKEN[11] != V1_TOKEN[11];
  }

  lemma ValueWrong(record: string, words: seq<string>, e: HelloError, ns: seq<int>)
    requires Framed(record, words) && |words| == 6 && words[0] == V2_TOKEN && ParseNumbers(words[2..]) == Ok(ns)
    ensures |ns| == 4
    ensures Checked(Hello(2, words[1], ns[0], ns[1], ns[2], ns[3])) == Err(e) <==> Wrong(record, words, e)
  {
    BadNumbers(words, 2, e);
    NumbersMean(words[2..]);
    var raw := words[2..];
    assert raw[0] == words[2] && raw[1] == words[3] && raw[2] == words[4] && raw[3] == words[5];
    forall h
      ensures Says(words, h) <==> h == Hello(2, words[1], ns[0], ns[1], ns[2], ns[3])
    {
      SaysOnly(words, ns, h);
    }
    assert V2_TOKEN[11] != V1_TOKEN[11];
  }

  // A record is refused as a hello with exactly the error that fits it.
  lemma HelloRefusedExactly(record: string, e: HelloError)
    ensures ReadHello(record) == Err(e) <==> Wrong(record, Fields(TrimSpace(record)), e)
  {
    if record != "" && |record| <= 256 && record[|record| - 1] == '\n' {
      FieldsWrong(record, Fields(TrimSpace(record)), e);
    }
  }
}
