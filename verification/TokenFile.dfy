// sessionauth: the token file format, and any number of processes racing to
// create the file.
module TokenFile {
  import opened Prelude
  import opened GoText

  type Byte = x: int | 0 <= x < 256
  type Token = t: seq<Byte> | |t| == TOKEN_BYTES witness seq<Byte>(TOKEN_BYTES, i => 0)

  const TOKEN_BYTES: nat := 32

  // ---- The format ---------------------------------------------------------

  function HexDigit(d: nat): (c: char)
    requires d < 16
    ensures PlainChar(c)
  {
    if d < 10 then ('0' as int + d) as char else ('a' as int + d - 10) as char
  }

  // hex.DecodeString takes both cases.
  function HexValue(c: char): Option<nat> {
    if '0' <= c <= '9' then Some(c as int - '0' as int)
    else if 'a' <= c <= 'f' then Some(c as int - 'a' as int + 10)
    else if 'A' <= c <= 'F' then Some(c as int - 'A' as int + 10)
    else None
  }

  function HexEncode(bytes: seq<Byte>): string {
    if bytes == [] then "" else [HexDigit(bytes[0] / 16), HexDigit(bytes[0] % 16)] + HexEncode(bytes[1..])
  }

  function HexDecode(s: string): Option<seq<Byte>> {
    if s == "" then Some([])
    else if |s| == 1 then None
    else
      match (HexValue(s[0]), HexValue(s[1]), HexDecode(s[2..]))
      case (Some(hi), Some(lo), Some(rest)) => if hi < 16 && lo < 16 then Some([hi * 16 + lo] + rest) else None
      case _ => None
  }

  predicate AllZero(t: Token) {
    forall i :: 0 <= i < |t| ==> t[i] == 0
  }

  // The file LoadOrCreateTokenFile writes.
  function FileText(t: Token): string {
    HexEncode(t) + "\n"
  }

  // What LoadTokenFile makes of the contents of a private regular file.
  function ParseToken(text: string): Option<Token> {
    var normalized := TrimSpace(text);
    if |normalized| != 2 * TOKEN_BYTES then None
    else match HexDecode(normalized)
      case None => None
      case Some(bytes) => if |bytes| != TOKEN_BYTES || AllZero(bytes) then None else Some(bytes)
  }

  lemma {:induction false} HexRoundTrip(bytes: seq<Byte>)
    ensures |HexEncode(bytes)| == 2 * |bytes|
    ensures forall i :: 0 <= i < |HexEncode(bytes)| ==> PlainChar(HexEncode(bytes)[i])
    ensures HexDecode(HexEncode(bytes)) == Some(bytes)
  {
    if bytes != [] {
      HexRoundTrip(bytes[1..]);
      var s := HexEncode(bytes);
      assert s[2..] == HexEncode(bytes[1..]);
      assert HexValue(s[0]) == Some(bytes[0] / 16) && HexValue(s[1]) == Some(bytes[0] % 16);
      assert bytes == [bytes[0]] + bytes[1..];
    }
  }

  // A written token file loads, as the token it was written for, exactly when the
  // token is not all zeroes.
  lemma TokenFileRoundTrip(t: Token)
    ensures ParseToken(FileText(t)) == if AllZero(t) then None else Some(t)
  {
    HexRoundTrip(t);
    TrimLine(HexEncode(t));
  }

  // ---- Racing creators ----------------------------------------------------

  datatype Failure = IoError | BadFile

  datatype Pc =
    | Lstat
    | ReadBack                               // the path exists: read it
    | Generate                               // the path was absent
    | Fill(token: Token, temp: string)       // writing the private temporary file
    | Link(token: Token, temp: string)       // temporary file complete and synced
    | LstatAgain                             // somebody else's link came first
    | Returned(token: Token, created: bool)
    | Failed(why: Failure)

  // The file at the path, if there is one.
  datatype State = State(file: Option<string>, procs: seq<Pc>)

  // random is what the random source returns, chunk how much one write puts out,
  // fails an I/O error.
  datatype Label = Start | Run(t: nat, random: Token, chunk: nat, fails: bool)

  const START := State(None, [])

  function Loaded(text: string): Pc {
    match ParseToken(text)
    case None => Failed(BadFile)
    case Some(token) => Returned(token, false)
  }

  function Act(file: Option<string>, pc: Pc, l: Label): (Option<string>, Pc)
    requires l.Run?
  {
    if l.fails && !pc.Returned? && !pc.Failed? then (file, Failed(IoError))
    else match pc
      case Lstat => (file, if file.None? then Generate else ReadBack)
      case LstatAgain => (file, if file.None? then Failed(BadFile) else ReadBack)
      case ReadBack => (file, if file.None? then Failed(BadFile) else Loaded(file.value))
      case Generate => (file, Fill(l.random, ""))
      case Fill(token, temp) =>
        var text := FileText(token);
        var n := |temp| + l.chunk;
        (file, if n < |text| then Fill(token, text[..n]) else Link(token, text))
      // os.Link fails if the path exists, and otherwise publishes the whole file.
      case Link(token, temp) =>
        if file.None? then (Some(temp), Returned(token, true)) else (file, LstatAgain)
      case Returned(_, _) => (file, pc)
      case Failed(_) => (file, pc)
  }

  function Step(s: State, l: Label): State {
    match l
    case Start => s.(procs := s.procs + [Lstat])
    case Run(t, _, _, _) =>
      if t < |s.procs| then
        var (file, pc) := Act(s.file, s.procs[t], l);
        State(file, s.procs[t := pc])
      else s
  }

  function Exec(ls: seq<Label>): State {
    if ls == [] then START else Step(Exec(ls[..|ls| - 1]), ls[|ls| - 1])
  }

  // No random token is all zeroes.
  ghost predicate GoodRandom(ls: seq<Label>) {
    forall i :: 0 <= i < |ls| && ls[i].Run? ==> !AllZero(ls[i].random)
  }

  // ---- The invariant ------------------------------------------------------

  ghost predicate PcInv(file: Option<string>, pc: Pc) {
    && (pc.ReadBack? || pc.LstatAgain? ==> file.Some?)
    && (pc.Fill? || pc.Link? ==> !AllZero(pc.token))
    && (pc.Link? ==> pc.temp == FileText(pc.token))
    && (pc.Returned? ==> !AllZero(pc.token) && file == Some(FileText(pc.token)))
    && (pc.Failed? ==> pc.why == IoError)
  }

  predicate Creator(pc: Pc) {
    pc.Returned? && pc.created
  }

  ghost predicate Inv(s: State) {
    && (forall t :: 0 <= t < |s.procs| ==> PcInv(s.file, s.procs[t]))
    && (forall t, u :: 0 <= t < |s.procs| && 0 <= u < |s.procs| && Creator(s.procs[t]) && Creator(s.procs[u]) ==>
          t == u)
    && (s.file.Some? <==> exists t :: 0 <= t < |s.procs| && Creator(s.procs[t]))
  }

  // Whatever the file holds was published by its creator, complete.
  lemma FileIsComplete(s: State)
    requires Inv(s) && s.file.Some?
    ensures exists t: Token :: !AllZero(t) && s.file == Some(FileText(t))
  {
    var t :| 0 <= t < |s.procs| && Creator(s.procs[t]);
    assert PcInv(s.file, s.procs[t]);
  }

  lemma ActInv(s: State, t: nat, l: Label)
    requires Inv(s) && t < |s.procs| && l.Run? && !AllZero(l.random)
    ensures var (file, pc) := Act(s.file, s.procs[t], l);
            && PcInv(file, pc)
            && (s.file.Some? ==> file == s.file)
            && (Creator(pc) <==> Creator(s.procs[t]) || (s.file.None? && file.Some?))
  {
    assert PcInv(s.file, s.procs[t]);
    if s.procs[t].ReadBack? {
      FileIsComplete(s);
      var token: Token :| !AllZero(token) && s.file == Some(FileText(token));
      TokenFileRoundTrip(token);
    }
  }

  lemma RunInv(s: State, l: Label)
    requires Inv(s) && l.Run? && l.t < |s.procs| && !AllZero(l.random)
    ensures Inv(Step(s, l))
  {
    var s' := Step(s, l);
    ActInv(s, l.t, l);
    forall u | 0 <= u < |s'.procs|
      ensures PcInv(s'.file, s'.procs[u])
    {
      assert PcInv(s.file, s.procs[u]);
    }
    if s.file.Some? {
      var u :| 0 <= u < |s.procs| && Creator(s.procs[u]);
      assert Creator(s'.procs[u]);
    } else if s'.file.Some? {
      assert Creator(s'.procs[l.t]);
    }
  }

  lemma StartInv(s: State)
    requires Inv(s)
    ensures Inv(Step(s, Start))
  {
    var s' := Step(s, Start);
    forall u | 0 <= u < |s'.procs|
      ensures PcInv(s'.file, s'.procs[u])
    {
      assert u == |s.procs| || PcInv(s.file, s.procs[u]);
    }
    if s.file.Some? {
      var u :| 0 <= u < |s.procs| && Creator(s.procs[u]);
      assert Creator(s'.procs[u]);
    }
  }

  lemma {:induction false} ExecInv(ls: seq<Label>)
    requires GoodRandom(ls)
    ensures Inv(Exec(ls))
  {
    if ls != [] {
      var s, l := Exec(ls[..|ls| - 1]), ls[|ls| - 1];
      ExecInv(ls[..|ls| - 1]);
      if l.Start? {
        StartInv(s);
      } else if l.t < |s.procs| {
        RunInv(s, l);
      }
    }
  }

  // ---- Theorems -----------------------------------------------------------

  // However the creators race, all that return have the same token, which is the
  // one the file holds, and exactly one of them reports having created it.
  lemma RacingCreatorsAgree(ls: seq<Label>, t: nat)
    requires GoodRandom(ls) && t < |Exec(ls).procs| && Exec(ls).procs[t].Returned?
    ensures var s := Exec(ls);
            && (forall u :: 0 <= u < |s.procs| && s.procs[u].Returned? ==> s.procs[u].token == s.procs[t].token)
            && s.file == Some(FileText(s.procs[t].token))
            && exists c :: 0 <= c < |s.procs| && Creator(s.procs[c]) &&
                 forall u :: 0 <= u < |s.procs| && Creator(s.procs[u]) ==> u == c
  {
    ExecInv(ls);
    var s := Exec(ls);
    var token := s.procs[t].token;
    assert PcInv(s.file, s.procs[t]);
    TokenFileRoundTrip(token);
    forall u | 0 <= u < |s.procs| && s.procs[u].Returned?
      ensures s.procs[u].token == token
    {
      assert PcInv(s.file, s.procs[u]);
      TokenFileRoundTrip(s.procs[u].token);
    }
  }

  // The only way to fail is an I/O error: no creator ever sees a missing,
  // half-written or malformed file.
  lemma OnlyIoErrorsFail(ls: seq<Label>, t: nat)
    requires GoodRandom(ls) && t < |Exec(ls).procs| && Exec(ls).procs[t].Failed?
    ensures Exec(ls).procs[t].why == IoError
  {
    ExecInv(ls);
    assert PcInv(Exec(ls).file, Exec(ls).procs[t]);
  }

  // ---- What one process does ----------------------------------------------

  function Ok(t: nat, random: Token, chunk: nat): Label {
    Run(t, random, chunk, false)
  }

  // With the file there, a process returns its token in two steps and creates nothing.
  lemma ExistingFileIsLoaded(s: State, token: Token, random: Token)
    requires s.file == Some(FileText(token)) && !AllZero(token)
    ensures var t := |s.procs|;
            var s' := Step(Step(Step(s, Start), Ok(t, random, 0)), Ok(t, random, 0));
            t < |s'.procs| && s'.procs[t] == Returned(token, false) && s'.file == s.file
  {
    TokenFileRoundTrip(token);
  }

  // Without it, a process left alone publishes the token it drew and returns it.
  lemma AbsentFileIsCreated(s: State, random: Token)
    requires s.file == None
    ensures var t, size := |s.procs|, |FileText(random)|;
            var l := Ok(t, random, size);
            var s' := Step(Step(Step(Step(Step(s, Start), l), l), l), l);
            t < |s'.procs| && s'.procs[t] == Returned(random, true) && s'.file == Some(FileText(random))
  {
  }

  // A process whose link comes second loads the token that came first, in three steps.
  lemma SecondLinkLoadsTheFirst(s: State, t: nat, token: Token, random: Token)
    requires t < |s.procs| && s.procs[t].Link? && s.file == Some(FileText(token)) && !AllZero(token)
    ensures var l := Ok(t, random, 0);
            var s' := Step(Step(Step(s, l), l), l);
            t < |s'.procs| && s'.procs[t] == Returned(token, false) && s'.file == s.file
  {
    TokenFileRoundTrip(token);
  }

  function Lower(c: char): char {
    if 'A' <= c <= 'F' then (c as int + 32) as char else c
  }

  function LowerText(s: string): string {
    if s == "" then "" else [Lower(s[0])] + LowerText(s[1..])
  }

  lemma HexValueMeans(c: char, d: nat)
    requires d < 16
    ensures HexValue(c) == Some(d) <==> HexDigit(d) == Lower(c)
    ensures HexValue(c).Some? ==> HexValue(c).value < 16
  {
  }

  lemma LowerTwo(s: string)
    requires |s| >= 2
    ensures LowerText(s) == [Lower(s[0]), Lower(s[1])] + LowerText(s[2..])
  {
    assert s[1..][1..] == s[2..];
  }

  lemma {:induction false} LowerLength(s: string)
    ensures |LowerText(s)| == |s|
  {
    if s != "" {
      LowerLength(s[1..]);
    }
  }

  lemma ByteParts(b: Byte, hi: nat, lo: nat)
    requires hi < 16 && lo < 16
    ensures b == hi * 16 + lo <==> hi == b / 16 && lo == b % 16
  {
  }

  // The decoder takes exactly the hexadecimal texts, in either case: what it returns
  // encodes to the text in lower case.
  lemma {:induction false} HexDecodeMeans(s: string, bytes: seq<Byte>)
    ensures HexDecode(s) == Some(bytes) <==> HexEncode(bytes) == LowerText(s)
  {
    HexRoundTrip(bytes);
    LowerLength(s);
    if |s| >= 2 && bytes != [] {
      HexDecodeMeans(s[2..], bytes[1..]);
      LowerTwo(s);
      HexValueMeans(s[0], bytes[0] / 16);
      HexValueMeans(s[1], bytes[0] % 16);
      HexStep(s, bytes);
    }
  }

  lemma HexStep(s: string, bytes: seq<Byte>)
    requires |s| >= 2 && bytes != []
    ensures HexDecode(s) == Some(bytes) <==>
              && HexValue(s[0]) == Some(bytes[0] / 16) && HexValue(s[1]) == Some(bytes[0] % 16)
              && HexDecode(s[2..]) == Some(bytes[1..])
  {
    assert bytes == [bytes[0]] + bytes[1..];
    if HexValue(s[0]).Some? && HexValue(s[1]).Some? {
      HexValueMeans(s[0], 0);
      HexValueMeans(s[1], 0);
      ByteParts(bytes[0], HexValue(s[0]).value, HexValue(s[1]).value);
    }
  }

  // A file loads as a token exactly if, trimmed, it is the token's 64 hexadecimal
  // digits in either case, and the token is not all zeroes.
  lemma TokenLoadsExactly(text: string, token: Token)
    ensures ParseToken(text) == Some(token) <==>
              |TrimSpace(text)| == 64 && LowerText(TrimSpace(text)) == HexEncode(token) && !AllZero(token)
  {
    HexDecodeMeans(TrimSpace(text), token);
  }
}
