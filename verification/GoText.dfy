// The parts of Go's strings and strconv packages the control lines depend on.
// A Go string is modelled as its bytes, one char per byte.
module GoText {
  import opened Prelude

  // ---- White space --------------------------------------------------------

  function ByteAt(s: string, i: int): int {
    if 0 <= i < |s| then s[i] as int else -1
  }

  // unicode.IsSpace on the bytes x, y, z of a UTF-8 text: the length of the white
  // space that starts with x, or 0. Lead bytes never occur inside another rune, so
  // looking at bytes finds exactly the white-space runes.
  function SpaceCode(x: int, y: int, z: int): nat {
    if 9 <= x <= 13 || x == 32 then 1
    else if x == 0xC2 && y in {0x85, 0xA0} then 2
    else if x == 0xE1 && y == 0x9A && z == 0x80 then 3
    else if x == 0xE2 && y == 0x80 && (0x80 <= z <= 0x8A || z in {0xA8, 0xA9, 0xAF}) then 3
    else if x == 0xE2 && y == 0x81 && z == 0x9F then 3
    else if x == 0xE3 && y == 0x80 && z == 0x80 then 3
    else 0
  }

  function LeadingSpace(s: string): (w: nat)
    ensures w <= |s|
  {
    SpaceCode(ByteAt(s, 0), ByteAt(s, 1), ByteAt(s, 2))
  }

  function TrailingSpace(s: string): (w: nat)
    ensures w <= |s|
  {
    var n := |s|;
    if SpaceCode(ByteAt(s, n - 1), -1, -1) == 1 then 1
    else if SpaceCode(ByteAt(s, n - 2), ByteAt(s, n - 1), -1) == 2 then 2
    else if SpaceCode(ByteAt(s, n - 3), ByteAt(s, n - 2), ByteAt(s, n - 1)) == 3 then 3
    else 0
  }

  function TrimLeft(s: string): (r: string)
    ensures |r| <= |s| && LeadingSpace(r) == 0
    decreases |s|
  {
    if LeadingSpace(s) == 0 then s else TrimLeft(s[LeadingSpace(s)..])
  }

  function TrimRight(s: string): string
    decreases |s|
  {
    if TrailingSpace(s) == 0 then s else TrimRight(s[..|s| - TrailingSpace(s)])
  }

  // strings.TrimSpace
  function TrimSpace(s: string): string {
    TrimRight(TrimLeft(s))
  }

  // ---- The white space of Unicode -----------------------------------------

  // unicode.IsSpace, by code point.
  predicate IsSpace(r: nat) {
    || 9 <= r <= 13 || r == 32 || r == 0x85 || r == 0xA0 || r == 0x1680 || 0x2000 <= r <= 0x200A
    || r == 0x2028 || r == 0x2029 || r == 0x202F || r == 0x205F || r == 0x3000
  }

  // The UTF-8 encoding of a code point of the basic plane.
  function Utf8(r: nat): seq<int>
    requires r < 0x10000
  {
    if r < 0x80 then [r]
    else if r < 0x800 then [0xC0 + r / 0x40, 0x80 + r % 0x40]
    else [0xE0 + r / 0x1000, 0x80 + r / 0x40 % 0x40, 0x80 + r % 0x40]
  }

  // Looking at the bytes finds exactly the white-space code points, with their length.
  lemma SpacesAreUnicode(r: nat)
    requires r < 0x10000
    ensures var u := Utf8(r);
            SpaceCode(u[0], if |u| > 1 then u[1] else -1, if |u| > 2 then u[2] else -1) == if IsSpace(r) then |u| else 0
  {
    if 0x800 <= r {
      assert r == r / 0x1000 * 0x1000 + r / 0x40 % 0x40 * 0x40 + r % 0x40;
    }
  }

  // Trimming leaves no white space at the front, and takes none but white space off.
  lemma TrimSpaceFront(s: string)
    ensures LeadingSpace(s) > 0 ==> TrimSpace(s) == TrimSpace(s[LeadingSpace(s)..])
    ensures LeadingSpace(s) == 0 == TrailingSpace(s) ==> TrimSpace(s) == s
    ensures LeadingSpace(s) == 0 && TrailingSpace(s) > 0 ==> TrimSpace(s) == TrimRight(s[..|s| - TrailingSpace(s)])
  {
  }

  function WordLength(s: string): (n: nat)
    ensures n <= |s|
    decreases |s|
  {
    if s == [] || LeadingSpace(s) > 0 then 0 else 1 + WordLength(s[1..])
  }

  // strings.Fields
  function Fields(s: string): seq<string>
    decreases |s|
  {
    var t := TrimLeft(s);
    if t == [] then [] else [t[..WordLength(t)]] + Fields(t[WordLength(t)..])
  }

  predicate PlainChar(c: char) {
    33 <= c as int < 127
  }

  // A word of printable ASCII without blanks.
  predicate Plain(w: string) {
    w != [] && forall i :: 0 <= i < |w| ==> PlainChar(w[i])
  }

  lemma {:induction false} WordLengthPlain(w: string, rest: string)
    requires forall i :: 0 <= i < |w| ==> PlainChar(w[i])
    requires rest == [] || LeadingSpace(rest) > 0
    ensures WordLength(w + rest) == |w|
  {
    if w == [] {
      assert w + rest == rest;
    } else {
      assert (w + rest)[1..] == w[1..] + rest;
      WordLengthPlain(w[1..], rest);
    }
  }

  lemma FieldsCons(w: string, rest: string)
    requires Plain(w) && (rest == [] || LeadingSpace(rest) > 0)
    ensures Fields(w + rest) == [w] + Fields(rest)
  {
    WordLengthPlain(w, rest);
    assert TrimLeft(w + rest) == w + rest;
    assert (w + rest)[..|w|] == w && (w + rest)[|w|..] == rest;
  }

  // Words separated by single blanks.
  function Unfields(ws: seq<string>): string {
    if ws == [] then "" else if |ws| == 1 then ws[0] else ws[0] + " " + Unfields(ws[1..])
  }

  lemma FieldsBlank(s: string)
    ensures Fields(" " + s) == Fields(s)
  {
    assert (" " + s)[1..] == s;
  }

  lemma {:induction false} FieldsUnfields(ws: seq<string>)
    requires forall i :: 0 <= i < |ws| ==> Plain(ws[i])
    ensures Fields(Unfields(ws)) == ws
  {
    if |ws| == 1 {
      FieldsCons(ws[0], "");
      assert ws[0] + "" == ws[0];
    } else if |ws| > 1 {
      FieldsUnfields(ws[1..]);
      var rest := " " + Unfields(ws[1..]);
      FieldsCons(ws[0], rest);
      FieldsBlank(Unfields(ws[1..]));
      assert ws[0] + " " + Unfields(ws[1..]) == ws[0] + rest;
      assert ws == [ws[0]] + ws[1..];
    }
  }

  lemma {:induction false} UnfieldsEnds(ws: seq<string>)
    requires ws != [] && forall i :: 0 <= i < |ws| ==> Plain(ws[i])
    ensures var s := Unfields(ws); s != [] && PlainChar(s[0]) && PlainChar(s[|s| - 1])
  {
    if |ws| > 1 {
      UnfieldsEnds(ws[1..]);
    }
  }

  // A terminated line that starts and ends with a printable character loses just
  // its newline.
  lemma TrimLine(s: string)
    requires s != [] && PlainChar(s[0]) && PlainChar(s[|s| - 1])
    ensures TrimSpace(s + "\n") == s
  {
    var line := s + "\n";
    assert TrimLeft(line) == line;
    assert TrailingSpace(line) == 1 && line[..|line| - 1] == s;
    assert TrimRight(s) == s;
    assert TrimRight(line) == TrimRight(line[..|line| - 1]);
  }

  // ---- Decimal numbers ----------------------------------------------------

  const MAX_INT: int := 0x7FFF_FFFF_FFFF_FFFF

  predicate Digit(c: char) {
    '0' <= c <= '9'
  }

  predicate Digits(s: string) {
    forall i :: 0 <= i < |s| ==> Digit(s[i])
  }

  function DigitChar(d: nat): (c: char)
    requires d < 10
    ensures Digit(c) && c as int - '0' as int == d
  {
    ('0' as int + d) as char
  }

  // fmt's %d
  function Itoa(n: int): (s: string)
    decreases n < 0, if n < 0 then -n else n
  {
    if n < 0 then "-" + Itoa(-n)
    else if n < 10 then [DigitChar(n)]
    else Itoa(n / 10) + [DigitChar(n % 10)]
  }

  function Value(s: string): nat
    requires Digits(s)
  {
    if s == [] then 0 else 10 * Value(s[..|s| - 1]) + (s[|s| - 1] as int - '0' as int)
  }

  // strconv.Atoi: a sign, digits, and the range of a 64-bit int.
  function Atoi(s: string): Option<int> {
    var negative := s != [] && s[0] == '-';
    var body := if s != [] && s[0] in {'-', '+'} then s[1..] else s;
    if body == [] || !Digits(body) then None
    else
      var n: int := if negative then 0 - Value(body) else Value(body);
      if -MAX_INT - 1 <= n <= MAX_INT then Some(n) else None
  }

  lemma {:induction false} ItoaDigits(n: nat)
    ensures Itoa(n) != [] && Digits(Itoa(n)) && Value(Itoa(n)) == n
  {
    if n >= 10 {
      ItoaDigits(n / 10);
      assert Itoa(n)[..|Itoa(n)| - 1] == Itoa(n / 10);
    }
  }

  lemma AtoiDigits(s: string)
    requires s != [] && Digits(s) && Value(s) <= MAX_INT + 1
    ensures Value(s) <= MAX_INT ==> Atoi(s) == Some(Value(s))
    ensures Atoi("-" + s) == Some(0 - Value(s))
  {
    assert ("-" + s)[1..] == s;
  }

  // A sign may stand in front; what is out of the range of an int is no number, and
  // neither is anything with another character in it, or a sign alone.
  lemma AtoiMeans(s: string)
    requires Digits(s)
    ensures s != [] ==> Atoi(s) == Atoi("+" + s) == if Value(s) <= 0x7FFF_FFFF_FFFF_FFFF then Some(Value(s)) else None
    ensures s != [] ==> Atoi("-" + s) == if Value(s) <= 0x8000_0000_0000_0000 then Some(0 - Value(s)) else None
    ensures Atoi("") == Atoi("+") == Atoi("-") == None
  {
    assert ("-" + s)[1..] == s && ("+" + s)[1..] == s;
    assert "-"[1..] == [] && "+"[1..] == [];
  }

  lemma AtoiRefuses(s: string, i: nat)
    requires i < |s| && !Digit(s[i]) && (i > 0 || s[0] !in {'-', '+'})
    ensures Atoi(s) == None
  {
    if s[0] in {'-', '+'} {
      assert s[1..][i - 1] == s[i];
    }
  }

  lemma AtoiItoa(n: int)
    requires -MAX_INT - 1 <= n <= MAX_INT
    ensures Atoi(Itoa(n)) == Some(n)
  {
    var m := if n < 0 then -n else n;
    ItoaDigits(m);
    AtoiDigits(Itoa(m));
  }

  lemma ItoaPlain(n: nat)
    ensures Plain(Itoa(n))
  {
    ItoaDigits(n);
  }

  lemma {:induction false} ItoaShort(n: nat)
    requires n < 10000
    ensures |Itoa(n)| <= 4
  {
    assert |Itoa(n / 1000)| == 1;
    assert n >= 1000 ==> |Itoa(n / 100)| == 2 && |Itoa(n / 10)| == 3;
    assert 100 <= n < 1000 ==> |Itoa(n / 100)| == 1 && |Itoa(n / 10)| == 2;
  }
}
