/** The loops of server.c and client.c that produce and consume the file protocol, over reads
    that may return fewer bytes than asked for. */
module FileTransfer {
  import opened Common
  import opened Codec

  /** The line buffers of client.c:137 and server.c:125, which the code does not check for
      overflow, and the file buffer of server.c:214. */
  const CLIENT_LINE := 1000
  const SERVER_LINE := 256
  const SERVER_CHUNK := 5000

  class Incoming {
    var input: string
    const failing: bool     // whether reads may fail
    ghost var errors: nat   // reads that failed

    constructor (input: string, failing: bool)
      ensures this.input == input && this.failing == failing && errors == 0
    {
      this.input, this.failing, errors := input, failing, 0;
    }

    /** myread: any positive number of bytes up to len, 0 at the end of the stream, -1 on error. */
    method MyRead(buf: array<char>, len: nat) returns (got: int)
      requires 0 < len <= buf.Length
      modifies this, buf
      ensures -1 <= got <= len && got <= |old(input)|
      ensures got == -1 ==> failing && input == old(input)
      ensures errors == old(errors) + if got == -1 then 1 else 0
      ensures got == 0 <==> got != -1 && old(input) == ""
      ensures got >= 0 ==> buf[..got] == old(input)[..got] && input == old(input)[got..]
    {
      var fails: bool := *;
      if failing && fails {
        errors := errors + 1;
        return -1;
      }
      if input == "" {
        return 0;
      }
      got :| 1 <= got <= Min(len, |input|);
      assert got <= Min(len, |input|);
      forall i | 0 <= i < got {
        buf[i] := input[i];
      }
      input := input[got..];
    }

    /** myread of a single character: None on error. */
    method ReadChar() returns (got: Option<bool>, c: char)
      modifies this
      ensures got == None ==> failing && input == old(input)
      ensures errors == old(errors) + if got == None then 1 else 0
      ensures got.Some? ==> (got.value <==> old(input) != "")
      ensures got == Some(true) ==> c == old(input)[0] && input == old(input)[1..]
      ensures got == Some(false) ==> input == ""
    {
      var ch := new char[1](_ => NUL);
      var len := MyRead(ch, 1);
      assert len == 1 ==> ch[..1][0] == old(input)[..1][0];
      got, c := if len < 0 then None else Some(len > 0), ch[0];
    }

    /** get_nvt_line (server.c:166-198, client.c:347-379): the buffer ends up with the line and a
        NUL, which replaces the carriage return already stored. Overrun is a write past the end
        of the buffer, and happens exactly when the line and its NUL do not fit. */
    method GetNvtLine(line: array<char>) returns (status: LineStatus)
      modifies this, line
      ensures errors == old(errors) + (if status == ReadError then 1 else 0) && (status == ReadError ==> failing)
      ensures status == Overrun ==> |Line(old(input))| >= line.Length
      ensures status == LineRead ==>
                var l := Line(old(input));
                && |l| < line.Length
                && line[..|l|] == l && line[|l|] == NUL && input == AfterLine(old(input))
    {
      var last := NUL;
      var n := 0;
      ghost var s, k := input, |Line(input)|;
      assert Line(s) == s[..k] && (k == |s| || CrlfAt(s, k)) by { LineIsFirst(s); }
      assert forall i :: 0 <= i < k ==> !CrlfAt(s, i) by { LineIsFirst(s); }
      while true
        invariant n <= |s| && n <= k + 1 && n <= line.Length && errors == old(errors)
        invariant input == s[n..]
        invariant forall i :: 0 <= i < n ==> line[i] == s[i]
        invariant last == if n == 0 then NUL else s[n - 1]
        decreases |s| - n
      {
        var got, c := ReadChar();
        if got == None {
          return ReadError;
        }
        if !got.value {
          assert n == |s| == k;
          if n == line.Length {
            return Overrun;
          }
          line[n] := NUL;
          return LineRead;
        }
        assert c == s[n];
        if last == '\r' && c == '\n' {
          assert CrlfAt(s, n - 1);
          assert n - 1 == k;
          line[n - 1] := NUL;
          return LineRead;
        }
        if n == line.Length {
          return Overrun;
        }
        line[n] := c;
        n := n + 1;
        last := c;
      }
    }

    /** The body loop of client.c:227-261: length bytes, or what there is of them before the
        stream ends or fails. */
    method ReadBody(length: nat) returns (file: string, missing: nat)
      modifies this
      ensures file <= old(input) && input == old(input)[|file|..]
      ensures missing + |file| == length
      ensures errors == old(errors) ==> |file| == Min(length, |old(input)|)
      ensures old(errors) <= errors && (errors != old(errors) ==> failing)
    {
      var line := new char[CLIENT_LINE](_ => NUL);
      file, missing := "", length;
      ghost var s := input;
      while missing > 0
        invariant missing + |file| == length && |file| <= |s| && errors == old(errors)
        invariant file == s[..|file|] && input == s[|file|..] && fresh(line)
      {
        var got := MyRead(line, Min(missing, CLIENT_LINE));
        if got <= 0 {
          break;
        }
        assert s[..|file|] + s[|file|..][..got] == s[..|file| + got];
        file := file + line[..got];
        missing := missing - got;
      }
    }

    /** One turn of loop_until_end from the response on (client.c:179-271). It computes the
        outcome of the turn; or a read error cuts the file short; or it overruns the line buffer,
        exactly when the response line does not fit it. */
    method ClientTurn() returns (status: LineStatus, outcome: Outcome)
      modifies this
      ensures errors != old(errors) ==> failing
      ensures status == ReadError ==> errors != old(errors)
      ensures status == Overrun ==> |Line(old(input))| >= CLIENT_LINE
      ensures status == LineRead ==> |Line(old(input))| < CLIENT_LINE
      ensures status == LineRead ==>
                outcome == Turn(old(input)).0 ||
                (errors != old(errors) && CutShort(outcome, Turn(old(input)).0))
      ensures status == LineRead && outcome == Turn(old(input)).0 && !outcome.Undefined? ==>
                input == Turn(old(input)).1
    {
      outcome := Undefined;
      var line := new char[CLIENT_LINE](_ => NUL);
      status := GetNvtLine(line);
      if status != LineRead {
        return;
      }
      CStringOfBuffer(line[..], |Line(old(input))|);
      var response := ParseInPlace(line);
      outcome := TakeFile(response);
    }

    /** client.c:208-271. */
    method TakeFile(response: Response) returns (outcome: Outcome)
      modifies this
      ensures var full := AfterResponse(response, old(input));
              && (outcome == full.0 || (errors != old(errors) && CutShort(outcome, full.0)))
              && (outcome == full.0 && !outcome.Undefined? ==> input == full.1)
      ensures old(errors) <= errors && (errors != old(errors) ==> failing)
    {
      outcome := Undefined;
      match response
      case Malformed => outcome := Bad;
      case Unspecified =>
      case Length(n) =>
        if n == -1 {
          outcome := NoFile;
        } else if n >= 0 {
          var file, missing := ReadBody(n);
          outcome := if missing > 0 then Truncated(file) else Received(file);
        }
    }
  }

  datatype LineStatus = LineRead | ReadError | Overrun

  /** The client has only a front of the file, and knows it. */
  predicate CutShort(outcome: Outcome, full: Outcome) {
    && outcome.Truncated? && (full.Received? || full.Truncated?)
    && outcome.content <= full.content
  }

  lemma {:induction false} CStringOfBuffer(s: string, n: nat)
    requires n < |s| && s[n] == NUL
    ensures CString(s) == CString(s[..n]) && |CString(s)| <= n
  {
    if n > 0 && s[0] != NUL {
      assert s[..n][1..] == s[1..][..n - 1];
      CStringOfBuffer(s[1..], n - 1);
    }
  }

  lemma {:induction false} CStringIs(s: string, n: nat)
    requires n < |s| && s[n] == NUL && NUL !in s[..n]
    ensures CString(s) == s[..n]
  {
    CStringOfBuffer(s, n);
    CStringWhole(s[..n]);
  }

  lemma {:induction false} CStringEnds(s: string)
    ensures CString(s) <= s && NUL !in CString(s)
    ensures |CString(s)| < |s| ==> s[|CString(s)|] == NUL
  {
    if s != "" && s[0] != NUL {
      CStringEnds(s[1..]);
    }
  }

  /** strrchr on a buffer. */
  method StrRChr(line: array<char>, c: char) returns (at: int)
    requires NUL in line[..] && c != NUL
    ensures at == LastIndex(CString(line[..]), c)
  {
    var i := 0;
    at := -1;
    ghost var s := CString(line[..]);
    CStringEnds(line[..]);
    CStringStops(line[..]);
    while line[i] != NUL
      invariant i <= |s| < line.Length && at == LastIndex(s[..i], c)
      decreases |s| - i
    {
      assert i < |s| && s[i] == line[i];
      assert s[..i + 1][..i] == s[..i];
      if line[i] == c {
        at := i;
      }
      i := i + 1;
    }
    assert s[..i] == s;
  }

  lemma {:induction false} CStringStops(s: string)
    requires NUL in s
    ensures |CString(s)| < |s|
  {
    if s[0] != NUL {
      assert NUL in s[1..];
      CStringStops(s[1..]);
    }
  }

  /** client.c:190-196: cut the line at its last comma; -1 if it has none. */
  method CutAtComma(line: array<char>) returns (at: int)
    requires NUL in line[..]
    modifies line
    ensures at == LastIndex(CString(old(line[..])), ',')
    ensures at < 0 ==> line[..] == old(line[..])
    ensures 0 <= at ==> at < line.Length && line[..] == old(line[..])[at := NUL] &&
                        CString(line[..]) == CString(old(line[..]))[..at]
  {
    CStringEnds(line[..]);
    at := StrRChr(line, ',');
    if at >= 0 {
      line[at] := NUL;
      CStringIs(line[..], at);
    }
  }

  lemma {:induction false} MiddleString(s: string, t: string, l: nat, r: nat)
    requires l < r < |CString(s)| <= |s| && t == s[r := NUL][l := NUL]
    ensures CString(t[l + 1..]) == CString(s)[l + 1..r]
  {
    CStringEnds(s);
    assert t[l + 1..][..r - l - 1] == CString(s)[l + 1..r];
    CStringIs(t[l + 1..], r - l - 1);
  }

  /** client.c:190-207: the line is cut at its last comma and then again; the length is the
      string behind the second cut. */
  method ParseInPlace(line: array<char>) returns (r: Response)
    requires NUL in line[..]
    modifies line
    ensures r == ParseLine(CString(old(line[..])))
  {
    ghost var s := CString(line[..]);
    CStringEnds(line[..]);
    var resp := CutAtComma(line);
    if resp < 0 {
      return Malformed;
    }
    assert line[..][resp] == NUL;
    var lenstr := CutAtComma(line);
    if lenstr < 0 {
      return Malformed;
    }
    MiddleString(old(line[..]), line[..], lenstr, resp);
    r := LengthField(CString(line[lenstr + 1..]));
  }

  class Outgoing {
    var output: string
    const failing: bool     // whether reads of the file and writes to the client may fail
    ghost var errors: nat   // those that failed

    constructor (failing: bool)
      ensures output == "" && this.failing == failing && errors == 0
    {
      output, errors := "", 0;
      this.failing := failing;
    }

    /** mywrite: all of it, or -1. */
    method MyWrite(text: string) returns (rc: int)
      modifies this
      ensures if rc == -1 then failing && output == old(output) && errors == old(errors) + 1
              else rc == |text| && output == old(output) + text && errors == old(errors)
    {
      var fails: bool := *;
      if failing && fails {
        errors := errors + 1;
        return -1;
      }
      output := output + text;
      rc := |text|;
    }

    /** process_line (server.c:212-269), with the file read in chunks of any size up to that of
        the buffer. It returns -1 on an error, having sent a part of the answer. */
    method ProcessLine(name: string, file: FileState) returns (rc: int)
      modifies this
      ensures rc == (if errors == old(errors) then 0 else -1) && (rc == -1 ==> failing)
      ensures old(errors) <= errors
      ensures rc == 0 ==> output == old(output) + Answer(name, file)
      ensures rc == -1 ==> old(output) <= output <= old(output) + Answer(name, file)
    {
      var header := Respond(name, file);
      rc := MyWrite(header);
      if rc < 0 {
        return;
      }
      rc := 0;
      if Served(name, file) {
        rc := SendFile(file.content);
      }
    }

    /** server.c:217-232. */
    method Respond(name: string, file: FileState) returns (header: string)
      ensures header + Body(name, file) == Answer(name, file)
    {
      if name == "" || file.Missing? {
        header := name + "," + "-1" + "," + MISSING_TEXT + "\r\n";
      } else if file.Unopenable? {
        header := name + "," + "-1" + "," + UNOPENABLE_TEXT + "\r\n";
      } else {
        header := name + "," + Decimal(|file.content|) + "," + "Ok" + "\r\n";
      }
    }

    /** server.c:245-265. */
    method SendFile(content: string) returns (rc: int)
      modifies this
      ensures rc == (if errors == old(errors) then 0 else -1) && (rc == -1 ==> failing)
      ensures old(errors) <= errors
      ensures rc == 0 ==> output == old(output) + content
      ensures rc == -1 ==> old(output) <= output <= old(output) + content
    {
      var sent := 0;
      while sent < |content|
        invariant sent <= |content| && output == old(output) + content[..sent] && errors == old(errors)
      {
        var fails: bool := *;
        if failing && fails {
          errors := errors + 1;
          return -1;
        }
        var length: nat :| 1 <= length <= Min(SERVER_CHUNK, |content| - sent);
        assert length <= Min(SERVER_CHUNK, |content| - sent);
        rc := MyWrite(content[sent..sent + length]);
        if rc < 0 {
          return;
        }
        assert content[..sent] + content[sent..sent + length] == content[..sent + length];
        sent := sent + length;
      }
      return 0;
    }
  }

  // ---------- The server's answer in the client's buffers ----------

  lemma {:induction false} FieldLengths(name: string, file: FileState)
    requires Served(name, file) ==> |file.content| < INT_LIMIT
    ensures |NumberField(name, file)| <= 10 && |TextField(name, file)| <= 36
  {
    if Served(name, file) {
      IntLength(|file.content|);
    }
  }

  lemma {:induction false} FieldsLine(name: string, number: string, text: string, rest: string)
    requires GoodName(name) && Plain(number) && Plain(text)
    ensures Line(ResponseLine(name, number, text) + "\r\n" + rest) == ResponseLine(name, number, text)
  {
    var tail := "," + number + "," + text;
    assert ResponseLine(name, number, text) == name + tail;
    HeaderLine(name, tail);
    LineRoundTrip(name + tail, rest);
  }

  /** Every name that fits the server's line buffer gives a response line that fits the client's,
      whatever follows it. */
  lemma {:induction false} ResponseFits(name: string, file: FileState, rest: string)
    requires GoodName(name) && |name| < SERVER_LINE
    requires Served(name, file) ==> |file.content| < INT_LIMIT
    ensures |Line(Answer(name, file) + rest)| < CLIENT_LINE
  {
    var number, text, body := NumberField(name, file), TextField(name, file), Body(name, file);
    NumberIsPlain(name, file);
    TextIsPlain(name, file);
    FieldLengths(name, file);
    FieldsLine(name, number, text, body + rest);
    assert Answer(name, file) + rest == ResponseLine(name, number, text) + "\r\n" + (body + rest);
  }

  /** One turn of the server (server.c:134-148): read a request line and answer it; an empty line
      or the end of the stream ends the connection. */
  method ServerTurn(requests: Incoming, answers: Outgoing, files: string -> FileState)
    returns (status: LineStatus, answered: bool)
    modifies requests, answers
    ensures requests.errors == old(requests.errors) + (if status == ReadError then 1 else 0) &&
            (status == ReadError ==> requests.failing)
    ensures answers.errors != old(answers.errors) ==> answers.failing
    ensures status == Overrun ==> |Line(old(requests.input))| >= SERVER_LINE
    ensures status != LineRead ==> !answered && answers.output == old(answers.output)
    ensures status == LineRead ==>
              |Line(old(requests.input))| < SERVER_LINE && requests.input == AfterLine(old(requests.input))
    ensures status == LineRead ==>
              var name := CString(Line(old(requests.input)));
              var answer := Answer(name, files(name));
              if answered then name != "" && answers.output == old(answers.output) + answer
              else if name == "" then answers.output == old(answers.output)
              else answers.errors != old(answers.errors) && old(answers.output) <= answers.output <= old(answers.output) + answer
  {
    var line := new char[SERVER_LINE](_ => NUL);
    answered := false;
    status := requests.GetNvtLine(line);
    if status == LineRead {
      ghost var l := Line(old(requests.input));
      CStringOfBuffer(line[..], |l|);
      assert line[..][..|l|] == l;
      var name := CString(line[..]);
      if name != "" {
        var rc := answers.ProcessLine(name, files(name));
        answered := rc == 0;
      }
    }
  }

  lemma {:induction false} RequestLine(name: string, more: string)
    requires GoodName(name)
    ensures var s := name + "\r\n" + more;
            Line(s) == name && CString(Line(s)) == name && AfterLine(s) == more
  {
    LineRoundTrip(name, more);
    CStringWhole(name);
  }

  /** A whole exchange, through the code of both sides: the client sends the name and CRLF
      (client.c:168-172), the server reads it and answers, the client takes the answer apart. No
      buffer overruns, the outcome is the file or the refusal, and both streams are at what
      follows. An empty name makes the server hang up. */
  method Exchange(name: string, files: string -> FileState, more: string, rest: string)
    returns (outcome: Outcome, unread: string, left: string)
    requires GoodName(name) && |name| < SERVER_LINE
    requires Served(name, files(name)) ==> |files(name).content| < INT_LIMIT
    ensures unread == more
    ensures outcome == if name == "" then Bad
                       else if Served(name, files(name)) then Received(files(name).content) else NoFile
    ensures left == if name == "" then "" else rest
  {
    var requests := new Incoming(name + "\r\n" + more, false);
    var answers := new Outgoing(false);
    RequestLine(name, more);
    var _, answered := ServerTurn(requests, answers, files);
    unread := requests.input;
    var client := new Incoming(if answered then answers.output + rest else "", false);
    if answered {
      assert answers.output == Answer(name, files(name));
      ResponseFits(name, files(name), rest);
      TurnOnAnswer(name, files(name), rest);
    }
    var status;
    status, outcome := client.ClientTurn();
    left := client.input;
  }
}
