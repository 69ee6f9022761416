/** The file protocol of server.c and client.c. The server answers a file name with the line
    "name,length,Ok" and the bytes of the file, or with a line that carries -1; the client cuts
    the line at its last two commas and reads that many bytes. */
module Codec {
  import opened Common

  const NUL := '\0'

  // ---------- Lines ----------

  predicate CrlfAt(s: string, i: int) {
    0 <= i && i + 1 < |s| && s[i] == '\r' && s[i + 1] == '\n'
  }

  predicate CrlfFree(s: string) {
    forall i :: 0 <= i < |s| ==> !CrlfAt(s, i)
  }

  /** The line that get_nvt_line reads, and what it leaves: everything up to the first CRLF, or
      all there is if the stream ends without one. */
  function Line(s: string): string {
    if s == "" || CrlfAt(s, 0) then "" else [s[0]] + Line(s[1..])
  }

  function AfterLine(s: string): string {
    if |Line(s)| + 2 <= |s| then s[|Line(s)| + 2..] else ""
  }

  lemma {:induction false} LineIsFirst(s: string)
    ensures Line(s) <= s && CrlfFree(Line(s))
    ensures |Line(s)| == |s| || CrlfAt(s, |Line(s)|)
    ensures forall i :: 0 <= i < |Line(s)| ==> !CrlfAt(s, i)
  {
    if s != "" && !CrlfAt(s, 0) {
      LineIsFirst(s[1..]);
      forall i | 0 <= i < |Line(s)|
        ensures !CrlfAt(s, i)
      {
        assert i > 0 ==> (CrlfAt(s, i) <==> CrlfAt(s[1..], i - 1));
      }
      assert forall i :: CrlfAt(Line(s), i) ==> CrlfAt(s, i);
      if |Line(s)| < |s| {
        assert CrlfAt(s[1..], |Line(s)| - 1);
      }
    }
  }

  /** A line without CRLF, followed by CRLF, is read back whole. */
  lemma {:induction false} LineRoundTrip(line: string, rest: string)
    requires CrlfFree(line)
    ensures Line(line + "\r\n" + rest) == line && AfterLine(line + "\r\n" + rest) == rest
  {
    var s := line + "\r\n" + rest;
    if line == "" {
      assert CrlfAt(s, 0);
    } else {
      assert s[1..] == line[1..] + "\r\n" + rest;
      assert forall i :: CrlfAt(line[1..], i) ==> CrlfAt(line, i + 1);
      LineRoundTrip(line[1..], rest);
      assert !CrlfAt(line, 0);
    }
  }

  // ---------- Numbers ----------

  predicate IsDigit(c: char) {
    '0' <= c <= '9'
  }

  function Digit(d: nat): char
    requires d < 10
  {
    ('0' as int + d) as char
  }

  /** printf's %lu */
  function Decimal(n: nat): string {
    if n < 10 then [Digit(n)] else Decimal(n / 10) + [Digit(n % 10)]
  }

  predicate IsSpace(c: char) {
    c == ' ' || '\t' <= c <= '\r'
  }

  function ScanDigits(s: string, value: nat): nat {
    if s == "" || !IsDigit(s[0]) then value
    else ScanDigits(s[1..], 10 * value + (s[0] as int - '0' as int))
  }

  /** scanf's %d: white space, a sign, digits; None if there is no digit. */
  function ScanInt(s: string): Option<int> {
    if s != "" && IsSpace(s[0]) then ScanInt(s[1..])
    else
      var signed := s != "" && (s[0] == '-' || s[0] == '+');
      var digits := if signed then s[1..] else s;
      if digits == "" || !IsDigit(digits[0]) then None
      else Some(if signed && s[0] == '-' then -(ScanDigits(digits, 0) as int) else ScanDigits(digits, 0))
  }

  predicate AllDigits(s: string) {
    forall i :: 0 <= i < |s| ==> IsDigit(s[i])
  }

  lemma {:induction false} ScanAppend(s: string, d: nat, value: nat)
    requires AllDigits(s) && d < 10
    ensures ScanDigits(s + [Digit(d)], value) == 10 * ScanDigits(s, value) + d
  {
    if s == "" {
      assert s + [Digit(d)] == [Digit(d)] && [Digit(d)][1..] == "";
    } else {
      assert (s + [Digit(d)])[1..] == s[1..] + [Digit(d)];
      ScanAppend(s[1..], d, 10 * value + (s[0] as int - '0' as int));
    }
  }

  lemma {:induction false} DecimalRoundTrip(n: nat)
    ensures AllDigits(Decimal(n)) && Decimal(n) != ""
    ensures ScanDigits(Decimal(n), 0) == n
    ensures ScanInt(Decimal(n)) == Some(n)
  {
    if n < 10 {
      assert Decimal(n)[1..] == "";
    } else {
      DecimalRoundTrip(n / 10);
      ScanAppend(Decimal(n / 10), n % 10, 0);
    }
  }

  lemma {:induction false} ScanStops(digits: string, tail: string, value: nat)
    requires AllDigits(digits) && (tail != "" ==> !IsDigit(tail[0]))
    ensures ScanDigits(digits + tail, value) == ScanDigits(digits, value)
  {
    if digits == "" {
      assert digits + tail == tail;
    } else {
      assert (digits + tail)[1..] == digits[1..] + tail;
      ScanStops(digits[1..], tail, 10 * value + (digits[0] as int - '0' as int));
    }
  }

  /** scanf's %d skips white space, takes one sign, reads the number and stops behind it. */
  lemma {:induction false} ScanLaw(spaces: string, sign: string, n: nat, tail: string)
    requires (forall c :: c in spaces ==> IsSpace(c)) && (tail != "" ==> !IsDigit(tail[0]))
    requires sign == "" || sign == "-" || sign == "+"
    ensures ScanInt(spaces + sign + Decimal(n) + tail) == Some(if sign == "-" then -(n as int) else n)
  {
    var s := spaces + sign + Decimal(n) + tail;
    if spaces == "" {
      assert s == sign + (Decimal(n) + tail);
      ScanSigned(sign, Decimal(n) + tail, n, tail);
    } else {
      ScanLaw(spaces[1..], sign, n, tail);
      assert s[1..] == spaces[1..] + sign + Decimal(n) + tail;
    }
  }

  lemma {:induction false} ScanSigned(sign: string, digits: string, n: nat, tail: string)
    requires digits == Decimal(n) + tail && (tail != "" ==> !IsDigit(tail[0]))
    requires sign == "" || sign == "-" || sign == "+"
    ensures ScanInt(sign + digits) == Some(if sign == "-" then -(n as int) else n)
  {
    DecimalRoundTrip(n);
    ScanStops(Decimal(n), tail, 0);
    assert digits[0] == Decimal(n)[0];
    if sign == "" {
      assert sign + digits == digits;
    } else {
      assert (sign + digits)[1..] == digits;
    }
  }

  function Power10(k: nat): nat {
    if k == 0 then 1 else 10 * Power10(k - 1)
  }

  lemma {:induction false} DecimalLength(n: nat, k: nat)
    requires k > 0 && n < Power10(k)
    ensures |Decimal(n)| <= k
  {
    if n >= 10 {
      assert k > 1 by {
        assert Power10(1) == 10 * Power10(0) == 10;
      }
      DecimalLength(n / 10, k - 1);
    }
  }

  /** No int has more than ten digits. */
  lemma {:induction false} IntLength(n: nat)
    requires n < 0x8000_0000
    ensures |Decimal(n)| <= 10
  {
    assert Power10(2) == 100;
    assert Power10(4) == 100 * Power10(2);
    assert Power10(6) == 100 * Power10(4);
    assert Power10(8) == 100 * Power10(6);
    assert Power10(10) == 100 * Power10(8) == 10_000_000_000;
    DecimalLength(n, 10);
  }

  // ---------- The response line ----------

  /** strrchr: the last position of the character, or -1. */
  function LastIndex(s: string, c: char): (i: int)
    ensures -1 <= i < |s| && (i >= 0 ==> s[i] == c)
    ensures forall j :: i < j < |s| ==> s[j] != c
  {
    if s == "" then -1
    else if s[|s| - 1] == c then |s| - 1
    else LastIndex(s[..|s| - 1], c)
  }

  /** Unspecified: sscanf found no digit, so that length keeps its previous value, or a number
      that no int can hold. */
  datatype Response = Malformed | Unspecified | Length(n: int)

  const INT_LIMIT := 0x8000_0000

  function LengthField(s: string): Response {
    match ScanInt(s)
    case Some(n) => if -INT_LIMIT <= n < INT_LIMIT then Length(n) else Unspecified
    case None => Unspecified
  }

  /** client.c:190-207. */
  function ParseLine(line: string): Response {
    var r := LastIndex(line, ',');
    if r < 0 then Malformed
    else
      var l := LastIndex(line[..r], ',');
      if l < 0 then Malformed
      else LengthField(line[l + 1..r])
  }

  lemma {:induction false} LastIndexIs(s: string, c: char, i: int)
    requires 0 <= i < |s| && s[i] == c && forall j :: i < j < |s| ==> s[j] != c
    ensures LastIndex(s, c) == i
  {
  }

  /** Whatever commas the name contains, the last two are the protocol's own. */
  lemma {:induction false} ParseRoundTrip(name: string, number: string, text: string)
    requires ',' !in number && ',' !in text
    ensures ParseLine(name + "," + number + "," + text) == LengthField(number)
  {
    var line := name + "," + number + "," + text;
    var l, r := |name|, |name| + 1 + |number|;
    LastIndexIs(line, ',', r);
    assert line[..r] == name + "," + number;
    LastIndexIs(line[..r], ',', l);
    assert line[l + 1..r] == number;
  }

  // ---------- A whole exchange ----------

  datatype FileState = Missing | Unopenable | Readable(content: string)

  predicate Served(name: string, file: FileState) {
    name != "" && file.Readable?
  }

  function NumberField(name: string, file: FileState): string {
    if Served(name, file) then Decimal(|file.content|) else "-1"
  }

  const MISSING_TEXT := "File does not exist or access denied"
  const UNOPENABLE_TEXT := "File could not be opened"

  function TextField(name: string, file: FileState): string {
    if name == "" || file.Missing? then MISSING_TEXT
    else if file.Unopenable? then UNOPENABLE_TEXT
    else "Ok"
  }

  function Body(name: string, file: FileState): string {
    if Served(name, file) then file.content else ""
  }

  function ResponseLine(name: string, number: string, text: string): string {
    name + "," + number + "," + text
  }

  /** What process_line sends for a name (server.c:217-265): the response line and the file. */
  function Answer(name: string, file: FileState): string {
    ResponseLine(name, NumberField(name, file), TextField(name, file)) + "\r\n" + Body(name, file)
  }

  /** The three answers, spelled out (server.c:219, 225, 229). */
  lemma {:induction false} AnswerIs(name: string, file: FileState)
    ensures name == "" || file.Missing? ==>
              Answer(name, file) == name + "," + "-1" + "," + "File does not exist or access denied" + "\r\n"
    ensures name != "" && file.Unopenable? ==>
              Answer(name, file) == name + "," + "-1" + "," + "File could not be opened" + "\r\n"
    ensures name != "" && file.Readable? ==>
              Answer(name, file) == name + "," + Decimal(|file.content|) + "," + "Ok" + "\r\n" + file.content
  {
  }

  /** A C string: the characters before the first NUL. */
  function CString(s: string): string {
    if s == "" || s[0] == NUL then "" else [s[0]] + CString(s[1..])
  }

  /** How one turn of the client ends. Truncated: the stream ended within the file. Undefined:
      the code goes on with a length it never read, or a negative one other than -1. */
  datatype Outcome = Bad | NoFile | Received(content: string) | Truncated(content: string) | Undefined

  /** One turn of loop_until_end on the incoming stream (client.c:179-271). */
  function Turn(s: string): (Outcome, string) {
    AfterResponse(ParseLine(CString(Line(s))), AfterLine(s))
  }

  /** The turn from the parsed response on (client.c:208-271). */
  function AfterResponse(response: Response, rest: string): (Outcome, string) {
    match response
    case Malformed => (Bad, rest)
    case Unspecified => (Undefined, rest)
    case Length(n) =>
      if n == -1 then (NoFile, rest)
      else if n < 0 then (Undefined, rest)
      else if n <= |rest| then (Received(rest[..n]), rest[n..])
      else (Truncated(rest), "")
  }

  predicate GoodName(name: string) {
    CrlfFree(name) && NUL !in name
  }

  lemma {:induction false} CStringWhole(s: string)
    requires NUL !in s
    ensures CString(s) == s
  {
    if s != "" {
      CStringWhole(s[1..]);
    }
  }

  /** The text behind a name adds neither CRLF nor NUL. */
  lemma {:induction false} HeaderLine(name: string, tail: string)
    requires GoodName(name)
    requires forall i :: 0 <= i < |tail| ==> tail[i] != '\r' && tail[i] != '\n' && tail[i] != NUL
    ensures CrlfFree(name + tail) && CString(name + tail) == name + tail
  {
    forall i | 0 <= i < |name + tail|
      ensures !CrlfAt(name + tail, i)
    {
      assert CrlfAt(name + tail, i) ==> CrlfAt(name, i);
    }
    CStringWhole(name + tail);
  }

  predicate Plain(s: string) {
    forall i :: 0 <= i < |s| ==> s[i] != '\r' && s[i] != '\n' && s[i] != NUL && s[i] != ','
  }

  lemma {:induction false} MissingIsPlain()
    ensures Plain(MISSING_TEXT)
  {
  }

  lemma {:induction false} UnopenableIsPlain()
    ensures Plain(UNOPENABLE_TEXT)
  {
  }

  lemma {:induction false} TextIsPlain(name: string, file: FileState)
    ensures Plain(TextField(name, file))
  {
    if name == "" || file.Missing? {
      MissingIsPlain();
    } else if file.Unopenable? {
      UnopenableIsPlain();
    }
  }

  lemma {:induction false} RefusalIsMinusOne()
    ensures Plain("-1") && ScanInt("-1") == Some(-1)
  {
    assert "-1"[1..] == "1" && "1"[1..] == "";
    assert ScanDigits("1", 0) == ScanDigits("", 1) == 1;
  }

  lemma {:induction false} NumberIsPlain(name: string, file: FileState)
    ensures Plain(NumberField(name, file))
    ensures ScanInt(NumberField(name, file)) == Some(if Served(name, file) then |file.content| else -1)
  {
    RefusalIsMinusOne();
    if Served(name, file) {
      DecimalRoundTrip(|file.content|);
      assert forall c :: IsDigit(c) ==> c != '\r' && c != '\n' && c != NUL && c != ',';
    }
  }

  lemma {:induction false} TurnOnFields(name: string, number: string, text: string, rest: string)
    requires GoodName(name) && Plain(number) && Plain(text)
    ensures Turn(ResponseLine(name, number, text) + "\r\n" + rest) == AfterResponse(LengthField(number), rest)
  {
    var line, tail := ResponseLine(name, number, text), "," + number + "," + text;
    assert line == name + tail;
    HeaderLine(name, tail);
    LineRoundTrip(line, rest);
    ParseRoundTrip(name, number, text);
  }

  /** What one turn makes of any response line with two commas, spelled out: no number, or one that
      no int holds, leaves it undefined; -1 is a refusal; otherwise the bytes that follow are the
      file, all of it or what there is. */
  lemma {:induction false} TurnLaw(name: string, number: string, text: string, rest: string)
    requires GoodName(name) && Plain(number) && Plain(text)
    ensures Turn(name + "," + number + "," + text + "\r\n" + rest) ==
            match ScanInt(number)
            case None => (Undefined, rest)
            case Some(n) =>
              if n == -1 then (NoFile, rest)
              else if n < 0 || n >= 0x8000_0000 then (Undefined, rest)
              else if n <= |rest| then (Received(rest[..n]), rest[n..])
              else (Truncated(rest), "")
  {
    TurnOnFields(name, number, text, rest);
  }

  /** A line with fewer than two commas is malformed. */
  lemma {:induction false} TurnOnMalformed(line: string, rest: string)
    requires GoodName(line)
    requires forall i, j :: 0 <= i < j < |line| ==> !(line[i] == ',' && line[j] == ',')
    ensures Turn(line + "\r\n" + rest) == (Bad, rest)
  {
    LineRoundTrip(line, rest);
    CStringWhole(line);
    OneComma(line);
  }

  lemma {:induction false} OneComma(line: string)
    requires forall i, j :: 0 <= i < j < |line| ==> !(line[i] == ',' && line[j] == ',')
    ensures ParseLine(line) == Malformed
  {
  }

  lemma {:induction false} BodyFollows(body: string, rest: string)
    ensures AfterResponse(Length(|body|), body + rest) == (Received(body), rest)
    ensures AfterResponse(Length(-1), rest) == (NoFile, rest)
  {
  }

  /** For every name without CRLF and NUL, commas allowed, the client gets the file's bytes or
      the refusal and stands at the start of the next answer, exactly when the file is not
      served or its length fits an int. */
  lemma {:induction false} TurnOnAnswer(name: string, file: FileState, rest: string)
    requires GoodName(name)
    ensures Turn(Answer(name, file) + rest) ==
            (if Served(name, file) then Received(file.content) else NoFile, rest)
            <==> (Served(name, file) ==> |file.content| < INT_LIMIT)
  {
    var number, text, body := NumberField(name, file), TextField(name, file), Body(name, file);
    NumberIsPlain(name, file);
    TextIsPlain(name, file);
    assert Answer(name, file) + rest == ResponseLine(name, number, text) + "\r\n" + (body + rest);
    TurnOnFields(name, number, text, body + rest);
    BodyFollows(body, rest);
    assert body == "" ==> body + rest == rest;
  }

  // ---------- A whole session ----------

  datatype Request = Request(name: string, file: FileState)

  function Answers(reqs: seq<Request>): string {
    if reqs == [] then "" else Answer(reqs[0].name, reqs[0].file) + Answers(reqs[1..])
  }

  function Turns(s: string, n: nat): (seq<Outcome>, string)
    decreases n
  {
    if n == 0 then ([], s)
    else
      var t := Turn(s);
      var more := Turns(t.1, n - 1);
      ([t.0] + more.0, more.1)
  }

  function Wanted(reqs: seq<Request>): seq<Outcome> {
    if reqs == [] then []
    else [if Served(reqs[0].name, reqs[0].file) then Received(reqs[0].file.content) else NoFile]
         + Wanted(reqs[1..])
  }

  /** Any sequence of answers is taken apart again, file by file. */
  lemma {:induction false} SessionRoundTrip(reqs: seq<Request>, rest: string)
    requires forall r :: r in reqs ==> GoodName(r.name)
    requires forall r :: r in reqs && r.file.Readable? ==> |r.file.content| < INT_LIMIT
    ensures Turns(Answers(reqs) + rest, |reqs|) == (Wanted(reqs), rest)
  {
    if reqs == [] {
      assert Answers(reqs) + rest == rest;
    } else {
      SessionRoundTrip(reqs[1..], rest);
      FirstAnswer(reqs, rest);
    }
  }

  lemma {:induction false} FirstAnswer(reqs: seq<Request>, rest: string)
    requires reqs != [] && GoodName(reqs[0].name)
    requires reqs[0].file.Readable? ==> |reqs[0].file.content| < INT_LIMIT
    ensures Turn(Answers(reqs) + rest) == (Wanted(reqs)[0], Answers(reqs[1..]) + rest)
  {
    var first, others := Answer(reqs[0].name, reqs[0].file), Answers(reqs[1..]);
    assert Answers(reqs) == first + others;
    AppendAssociates(first, others, rest);
    TurnOnAnswer(reqs[0].name, reqs[0].file, others + rest);
  }
}
