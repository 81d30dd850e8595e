/** Newline framing of the JSON messages between the agent and the editor extension
    (agent/src/ipc.ts, extension/src/ipcClient.ts). */
module LineFraming {
  import opened Options
  import opened Sequences
  import opened Texts
  import opened Messages

  function Concat(parts: seq<string>): string {
    if parts == [] then "" else Concat(DropLast(parts)) + Last(parts)
  }

  function Terminated(lines: seq<string>): string {
    if lines == [] then "" else Terminated(DropLast(lines)) + Last(lines) + "\n"
  }

  // ----- the reader as a fold over chunks -----

  datatype Reader = Reader(buf: string, lines: seq<string>)

  function Receive(r: Reader, chunk: string): Reader {
    Reader(Rest(r.buf + chunk), r.lines + Lines(r.buf + chunk))
  }

  function ReceiveAll(r: Reader, chunks: seq<string>): Reader {
    if chunks == [] then r else Receive(ReceiveAll(r, DropLast(chunks)), Last(chunks))
  }

  lemma {:induction false} SplitConcat(a: string, b: string)
    ensures Split(a + b) == Lines(a) + Split(Rest(a) + b)
  {
    hide Split, OneLine;
    if b == [] {
      assert a + b == a && Rest(a) + b == Rest(a);
      RestOneLine(a);
      SplitOneLine(Rest(a));
    } else {
      SplitConcatPush(a, DropLast(b), Last(b));
      SplitConcat(a, DropLast(b));
      assert DropLast(b) + [Last(b)] == b;
    }
  }

  lemma SplitConcatPush(a: string, b: string, c: char)
    ensures Split(a + b) == Lines(a) + Split(Rest(a) + b) ==>
              Split(a + (b + [c])) == Lines(a) + Split(Rest(a) + (b + [c]))
  {
    hide Split;
    assert a + (b + [c]) == (a + b) + [c] && Rest(a) + (b + [c]) == (Rest(a) + b) + [c];
    SplitPush(a + b, c);
    SplitPush(Rest(a) + b, c);
    if Split(a + b) == Lines(a) + Split(Rest(a) + b) {
      assert Lines(a + b) == Lines(a) + Lines(Rest(a) + b);
    }
  }

  /** Splitting loses nothing: the complete lines, each with its newline, and the rest are the text. */
  lemma {:induction false} SplitLossless(text: string)
    ensures Terminated(Lines(text)) + Rest(text) == text
    ensures AllOneLine(Lines(text)) && OneLine(Rest(text))
  {
    RestOneLine(text);
    if text != [] {
      var before := DropLast(text);
      SplitLossless(before);
      assert text == before + [Last(text)];
      if Last(text) == '\n' {
        assert Lines(text) == Lines(before) + [Rest(before)];
        assert DropLast(Lines(before) + [Rest(before)]) == Lines(before);
      } else {
        assert Lines(text) == Lines(before);
      }
    }
  }

  lemma {:induction false} SplitTerminated(lines: seq<string>)
    requires AllOneLine(lines)
    ensures Split(Terminated(lines)) == lines + [""]
  {
    if lines != [] {
      assert lines == DropLast(lines) + [Last(lines)];
      SplitTerminated(DropLast(lines));
      SplitTerminatedPush(DropLast(lines), Last(lines));
    }
  }

  lemma SplitTerminatedPush(lines: seq<string>, line: string)
    requires Split(Terminated(lines)) == lines + [""] && OneLine(line)
    ensures Split(Terminated(lines + [line])) == lines + [line] + [""]
  {
    hide Split, OneLine;
    var before := Terminated(lines);
    assert DropLast(lines + [line]) == lines;
    assert Terminated(lines + [line]) == (before + line) + ['\n'];
    SplitConcat(before, line);
    assert Lines(before) == lines && Rest(before) + line == line;
    SplitOneLine(line);
    SplitPush(before + line, '\n');
  }

  /** And it is the only way to do so. */
  lemma SplitUnique(lines: seq<string>, rest: string)
    requires AllOneLine(lines) && OneLine(rest)
    ensures Lines(Terminated(lines) + rest) == lines && Rest(Terminated(lines) + rest) == rest
  {
    hide Split, Terminated;
    SplitTerminated(lines);
    SplitConcat(Terminated(lines), rest);
    assert Lines(Terminated(lines)) == lines && "" + rest == rest;
    SplitOneLine(rest);
  }

  /** The chunks do not matter, only the text they make together: from any buffer the delivered lines
      are the newline-terminated lines of buffer and stream, and the buffer ends as the rest. */
  lemma {:induction false} ChunkingIndependent(r: Reader, chunks: seq<string>)
    requires OneLine(r.buf)
    ensures ReceiveAll(r, chunks) == Reader(Rest(r.buf + Concat(chunks)), r.lines + Lines(r.buf + Concat(chunks)))
    ensures OneLine(ReceiveAll(r, chunks).buf)
  {
    hide Split, OneLine;
    RestOneLine(r.buf + Concat(chunks));
    if chunks == [] {
      assert r.buf + "" == r.buf;
      SplitOneLine(r.buf);
    } else {
      ChunkingIndependent(r, DropLast(chunks));
      var before := r.buf + Concat(DropLast(chunks));
      assert r.buf + Concat(chunks) == before + Last(chunks);
      SplitConcat(before, Last(chunks));
      assert Lines(before + Last(chunks)) == Lines(before) + Lines(Rest(before) + Last(chunks));
    }
  }

  // ----- messages -----

  /** The JSON writer keeps control characters escaped (RFC 8259, section 7), so a text is one line. */
  ghost predicate Framable(codec: Codec) {
    forall j :: OneLine(codec.write(j)) && Trim(codec.write(j)) != "" && codec.read(codec.write(j)) == Some(j)
  }

  /** What a line delivers: nothing when it is blank or not JSON. */
  function Parsed(codec: Codec, line: string): seq<Json> {
    if Trim(line) == "" then []
    else
      match codec.read(line)
      case Some(value) => [value]
      case None => []
  }

  function Delivered(codec: Codec, lines: seq<string>): seq<Json> {
    if lines == [] then [] else Delivered(codec, DropLast(lines)) + Parsed(codec, Last(lines))
  }

  function Written(codec: Codec, messages: seq<Json>): seq<string> {
    Map(messages, codec.write)
  }

  /** The bytes of a list of messages on the wire. */
  function Encode(codec: Codec, messages: seq<Json>): string {
    Terminated(Written(codec, messages))
  }

  lemma WrittenOneLine(codec: Codec, messages: seq<Json>)
    requires Framable(codec)
    ensures AllOneLine(Written(codec, messages))
  {
    forall l | l in Written(codec, messages) ensures OneLine(l) {
      var i :| 0 <= i < |Written(codec, messages)| && Written(codec, messages)[i] == l;
      MapAt(messages, codec.write, i);
    }
  }

  lemma {:induction false} DeliveredWritten(codec: Codec, messages: seq<Json>)
    requires Framable(codec)
    ensures Delivered(codec, Written(codec, messages)) == messages
  {
    hide Trim, OneLine;
    if messages != [] {
      DeliveredWritten(codec, DropLast(messages));
      assert DropLast(Written(codec, messages)) == Written(codec, DropLast(messages));
      assert Parsed(codec, codec.write(Last(messages))) == [Last(messages)];
    }
  }

  lemma {:induction false} DeliveredConcat(codec: Codec, a: seq<string>, b: seq<string>)
    ensures Delivered(codec, a + b) == Delivered(codec, a) + Delivered(codec, b)
  {
    hide Parsed;
    if b == [] {
      assert a + b == a;
    } else {
      DeliveredConcat(codec, a, DropLast(b));
      assert DropLast(a + b) == a + DropLast(b);
    }
  }

  lemma DeliveredOne(codec: Codec, line: string)
    ensures Delivered(codec, [line]) == Parsed(codec, line)
  {
    assert DropLast([line]) == [];
  }

  /** Any chunking of the encoding of a message list decodes to that list and leaves nothing behind. */
  lemma FramingRoundTrip(codec: Codec, messages: seq<Json>, chunks: seq<string>)
    requires Framable(codec) && Concat(chunks) == Encode(codec, messages)
    ensures var r := ReceiveAll(Reader("", []), chunks);
            Delivered(codec, r.lines) == messages && r.buf == ""
  {
    hide Split, Trim;
    ChunkingIndependent(Reader("", []), chunks);
    WrittenOneLine(codec, messages);
    SplitUnique(Written(codec, messages), "");
    assert "" + Concat(chunks) == Encode(codec, messages) + "";
    assert [] + Written(codec, messages) == Written(codec, messages);
    DeliveredWritten(codec, messages);
  }

  /** The extension keeps its buffer when it reconnects.  What an earlier connection left unfinished
      joins the first line of the next one; every later message arrives. */
  lemma {:induction false} LeftoverJoinsFirstLine(codec: Codec, leftover: string, messages: seq<Json>,
                                                  chunks: seq<string>)
    requires Framable(codec) && OneLine(leftover) && messages != []
    requires Concat(chunks) == Encode(codec, messages)
    ensures Delivered(codec, ReceiveAll(Reader(leftover, []), chunks).lines)
         == Parsed(codec, leftover + codec.write(messages[0])) + messages[1..]
  {
    hide Split, Trim, Parsed, Terminated;
    var lines := Written(codec, messages);
    WrittenOneLine(codec, messages);
    MapAt(messages, codec.write, 0);
    ChunkingIndependent(Reader(leftover, []), chunks);
    var joined := [leftover + lines[0]] + lines[1..];
    JoinedText(leftover, lines);
    JoinedOneLine(leftover, lines);
    SplitUnique(joined, "");
    assert leftover + Concat(chunks) == Terminated(joined) + "";
    assert [] + joined == joined;
    DeliveredOne(codec, leftover + lines[0]);
    DeliveredConcat(codec, [leftover + lines[0]], lines[1..]);
    TailWritten(codec, messages);
    DeliveredWritten(codec, messages[1..]);
  }

  lemma JoinedOneLine(leftover: string, lines: seq<string>)
    requires OneLine(leftover) && AllOneLine(lines) && lines != []
    ensures AllOneLine([leftover + lines[0]] + lines[1..])
  {
    assert lines[0] in lines && forall x :: x in lines[1..] ==> x in lines;
  }

  lemma {:induction false} JoinedText(leftover: string, lines: seq<string>)
    requires lines != []
    ensures leftover + Terminated(lines) == Terminated([leftover + lines[0]] + lines[1..])
  {
    var joined := [leftover + lines[0]] + lines[1..];
    if |lines| == 1 {
      assert DropLast(lines) == [] && DropLast(joined) == [];
    } else {
      JoinedText(leftover, DropLast(lines));
      assert DropLast(joined) == [leftover + lines[0]] + DropLast(lines)[1..];
      assert leftover + Terminated(lines) == leftover + Terminated(DropLast(lines)) + Last(lines) + "\n";
    }
  }

  lemma {:induction false} TailWritten(codec: Codec, messages: seq<Json>)
    requires messages != []
    ensures Written(codec, messages)[1..] == Written(codec, messages[1..])
  {
    forall i | 0 <= i < |messages| - 1 ensures Written(codec, messages)[1..][i] == Written(codec, messages[1..])[i] {
      MapAt(messages, codec.write, i + 1);
      MapAt(messages[1..], codec.write, i);
    }
  }

  /** So across a reconnect a message list arrives intact exactly when what was left before its first
      message still reads as that message: nothing left will do. */
  lemma ReconnectIntactIff(codec: Codec, leftover: string, messages: seq<Json>, chunks: seq<string>)
    requires Framable(codec) && OneLine(leftover) && messages != []
    requires Concat(chunks) == Encode(codec, messages)
    ensures Delivered(codec, ReceiveAll(Reader(leftover, []), chunks).lines) == messages
       <==> && Trim(leftover + codec.write(messages[0])) != ""
            && codec.read(leftover + codec.write(messages[0])) == Some(messages[0])
    ensures leftover == "" ==> Delivered(codec, ReceiveAll(Reader(leftover, []), chunks).lines) == messages
  {
    hide Trim, Split, Delivered, ReceiveAll, Encode, Concat, OneLine;
    LeftoverJoinsFirstLine(codec, leftover, messages, chunks);
    assert messages == [messages[0]] + messages[1..];
    var first := Parsed(codec, leftover + codec.write(messages[0]));
    assert |first| <= 1;
    if first + messages[1..] == messages {
      assert |first + messages[1..]| == |first| + |messages| - 1;
      assert (first + messages[1..])[0] == first[0];
    }
    if leftover == "" {
      assert leftover + codec.write(messages[0]) == codec.write(messages[0]);
    }
  }

  // ----- a connection that breaks -----

  /** The text of an object, or an unfinished part of it, with the text of another behind it is not a JSON
      text (RFC 8259, section 2): it still has a brace or a string open, or holds two values. */
  ghost predicate SelfDelimiting(codec: Codec) {
    forall a: Json, b: Json, part: string ::
      a.Object? && b.Object? && part != "" && part <= codec.write(a) ==> codec.read(part + codec.write(b)) == None
  }

  predicate AllObjects(messages: seq<Json>) {
    forall m :: m in messages ==> m.Object?
  }

  /** A stream that is cut anywhere ends in complete lines and a part of the next one. */
  lemma {:induction false} CutAt(lines: seq<string>, n: nat) returns (k: nat, part: string)
    requires n <= |Terminated(lines)|
    ensures k <= |lines| && Terminated(lines)[..n] == Terminated(lines[..k]) + part
    ensures if k < |lines| then part <= lines[k] else part == ""
  {
    if n == |Terminated(lines)| {
      k, part := |lines|, "";
      assert lines[..k] == lines;
    } else {
      var init := DropLast(lines);
      if n < |Terminated(init)| {
        k, part := CutAt(init, n);
        assert lines[..k] == init[..k];
      } else {
        k, part := |init|, Last(lines)[..n - |Terminated(init)|];
        assert lines[..k] == init;
      }
    }
  }

  /** Any leftover costs the first message of the next connection, and that one only. */
  lemma LeftoverCosts(codec: Codec, a: Json, leftover: string, messages: seq<Json>, chunks: seq<string>)
    requires Framable(codec) && SelfDelimiting(codec) && a.Object? && leftover <= codec.write(a)
    requires messages != [] && messages[0].Object? && Concat(chunks) == Encode(codec, messages)
    ensures Delivered(codec, ReceiveAll(Reader(leftover, []), chunks).lines)
         == if leftover == "" then messages else messages[1..]
  {
    hide Trim, Split, Delivered, ReceiveAll, Encode, Concat;
    assert OneLine(leftover) by { assert forall c :: c in leftover ==> c in codec.write(a); }
    LeftoverJoinsFirstLine(codec, leftover, messages, chunks);
    ReconnectIntactIff(codec, leftover, messages, chunks);
  }

  /** What was there before a connection does not change what it delivers. */
  lemma DeliveredAfter(codec: Codec, r: Reader, chunks: seq<string>)
    requires OneLine(r.buf)
    ensures Delivered(codec, ReceiveAll(r, chunks).lines)
         == Delivered(codec, r.lines) + Delivered(codec, ReceiveAll(Reader(r.buf, []), chunks).lines)
  {
    hide Split, Delivered, OneLine;
    ChunkingIndependent(r, chunks);
    ChunkingIndependent(Reader(r.buf, []), chunks);
    var lines := Lines(r.buf + Concat(chunks));
    assert [] + lines == lines;
    DeliveredConcat(codec, r.lines, lines);
  }

  /** A connection breaks at byte `n` and the next one carries `messages`, both in any chunks: of what was
      sent before, exactly the messages whose newline arrived are delivered, and of `messages` all but the
      first, which is delivered too exactly when the break was between two messages. */
  lemma BrokenConnection(codec: Codec, sent: seq<Json>, n: nat, before: seq<string>,
                         messages: seq<Json>, after: seq<string>)
    returns (k: nat)
    requires Framable(codec) && SelfDelimiting(codec) && AllObjects(sent) && AllObjects(messages) && messages != []
    requires n <= |Encode(codec, sent)| && Concat(before) == Encode(codec, sent)[..n]
    requires Concat(after) == Encode(codec, messages)
    ensures k <= |sent| && |Encode(codec, sent[..k])| <= n
    ensures k < |sent| ==> n < |Encode(codec, sent[..k + 1])|
    ensures Delivered(codec, ReceiveAll(ReceiveAll(Reader("", []), before), after).lines)
         == sent[..k] + if n == |Encode(codec, sent[..k])| then messages else messages[1..]
  {
    hide Trim, Split, Delivered, ReceiveAll, Concat, Terminated, OneLine, SelfDelimiting, Framable;
    var part;
    k, part := CutAt(Written(codec, sent), n);
    WrittenPrefix(codec, sent, k);
    var r := ReceiveAll(Reader("", []), before);
    BeforeBreak(codec, sent, k, part, before);
    DeliveredAfter(codec, r, after);
    assert |Encode(codec, sent)[..n]| == n;
    if k < |sent| {
      WrittenPrefix(codec, sent, k + 1);
      LongerByOne(codec, sent, k);
      LeftoverCosts(codec, sent[k], part, messages, after);
    } else {
      assert messages[0].Object?;
      LeftoverCosts(codec, messages[0], part, messages, after);
    }
  }

  lemma WrittenPrefix(codec: Codec, messages: seq<Json>, k: nat)
    requires k <= |messages|
    ensures Written(codec, messages[..k]) == Written(codec, messages)[..k]
    ensures k < |messages| ==> Written(codec, messages)[k] == codec.write(messages[k])
  {
    forall i | 0 <= i < k ensures Written(codec, messages[..k])[i] == Written(codec, messages)[i] {
      MapAt(messages[..k], codec.write, i);
      MapAt(messages, codec.write, i);
    }
    if k < |messages| {
      MapAt(messages, codec.write, k);
    }
  }

  lemma LongerByOne(codec: Codec, messages: seq<Json>, k: nat)
    requires k < |messages|
    ensures |Encode(codec, messages[..k + 1])| == |Encode(codec, messages[..k])| + |codec.write(messages[k])| + 1
  {
    WrittenPrefix(codec, messages, k);
    WrittenPrefix(codec, messages, k + 1);
    assert DropLast(Written(codec, messages[..k + 1])) == Written(codec, messages[..k]);
  }

  /** What the broken connection leaves. */
  lemma BeforeBreak(codec: Codec, sent: seq<Json>, k: nat, part: string, before: seq<string>)
    requires Framable(codec) && k <= |sent| && Concat(before) == Encode(codec, sent[..k]) + part
    requires if k < |sent| then part <= codec.write(sent[k]) else part == ""
    ensures var r := ReceiveAll(Reader("", []), before);
            Delivered(codec, r.lines) == sent[..k] && r.buf == part && OneLine(part)
  {
    hide Trim, Split, Delivered, Concat, Terminated;
    assert OneLine(part) by {
      if k < |sent| {
        assert OneLine(codec.write(sent[k])) && forall c :: c in part ==> c in codec.write(sent[k]);
      }
    }
    hide OneLine, Framable;
    var lines := Written(codec, sent[..k]);
    ChunkingIndependent(Reader("", []), before);
    WrittenOneLine(codec, sent[..k]);
    SplitUnique(lines, part);
    assert "" + Concat(before) == Terminated(lines) + part && [] + lines == lines;
    DeliveredWritten(codec, sent[..k]);
  }

  // ----- the two ends -----

  /** The loop over the complete lines; blank and malformed ones are skipped. */
  method ParseLines(codec: Codec, lines: seq<string>) returns (values: seq<Json>)
    ensures values == Delivered(codec, lines)
  {
    hide Trim;
    values := [];
    for i := 0 to |lines|
      invariant values == Delivered(codec, lines[..i])
    {
      assert DropLast(lines[..i + 1]) == lines[..i];
      if Trim(lines[i]) == "" {
        continue;
      }
      var value := codec.read(lines[i]);
      if value.Some? {
        values := values + [value.value];
      }
    }
    assert lines[..|lines|] == lines;
  }

  /** The extension's end: one buffer for all its connections. */
  class IpcClient {
    const codec: Codec
    var buf: string
    var connected: bool
    var received: seq<Json>
    var written: string
    ghost var lines: seq<string>

    ghost predicate Valid()
      reads this
    {
      OneLine(buf) && received == Delivered(codec, lines)
    }

    constructor (codec: Codec)
      ensures Valid() && buf == "" && lines == [] && !connected && written == "" && this.codec == codec
    {
      this.codec := codec;
      buf, connected, received, written, lines := "", false, [], "", [];
    }

    /** Connected; the old buffer stays.  The first message registers the extension. */
    method OnConnect(register: Json)
      requires Valid()
      modifies this
      ensures Valid() && connected && written == old(written) + Terminated([codec.write(register)])
      ensures buf == old(buf) && lines == old(lines) && received == old(received)
    {
      connected := true;
      Write(register);
    }

    method OnData(chunk: string)
      requires Valid()
      modifies `buf, `lines, `received
      ensures Valid() && Reader(buf, lines) == Receive(Reader(old(buf), old(lines)), chunk)
    {
      hide Split, Trim, OneLine;
      buf := buf + chunk;
      var parts := Split(buf);
      RestOneLine(buf);
      buf := Last(parts);
      parts := DropLast(parts);
      DeliveredConcat(codec, lines, parts);
      lines := lines + parts;
      var values := ParseLines(codec, parts);
      received := received + values;
    }

    method OnClose()
      requires Valid()
      modifies `connected
      ensures Valid() && !connected
    {
      connected := false;
    }

    /** Without a connection the message is dropped. */
    method Send(data: Json)
      requires Valid()
      modifies `written
      ensures Valid() && written == if connected then old(written) + Terminated([codec.write(data)]) else old(written)
    {
      if !connected {
        return;
      }
      Write(data);
    }

    method Write(data: Json)
      modifies `written
      ensures written == old(written) + Terminated([codec.write(data)])
    {
      assert DropLast([codec.write(data)]) == [];
      written := written + (codec.write(data) + "\n");
    }
  }

  /** The agent's end of one connection: its buffer starts empty each time. */
  class AgentConnection {
    const codec: Codec
    var buf: string
    var handled: seq<Json>
    ghost var lines: seq<string>

    ghost predicate Valid()
      reads this
    {
      OneLine(buf) && handled == Delivered(codec, lines)
    }

    constructor (codec: Codec)
      ensures Valid() && Reader(buf, lines) == Reader("", []) && this.codec == codec
    {
      this.codec := codec;
      buf, handled, lines := "", [], [];
    }

    method OnData(chunk: string)
      requires Valid()
      modifies this
      ensures Valid() && Reader(buf, lines) == Receive(Reader(old(buf), old(lines)), chunk)
    {
      hide Split, Trim, OneLine;
      buf := buf + chunk;
      var parts := Split(buf);
      RestOneLine(buf);
      buf := Last(parts);
      parts := DropLast(parts);
      DeliveredConcat(codec, lines, parts);
      lines := lines + parts;
      var values := ParseLines(codec, parts);
      handled := handled + values;
    }
  }

  /** A stream fed to an agent connection chunk by chunk. */
  method Feed(connection: AgentConnection, chunks: seq<string>, ghost messages: seq<Json>)
    requires connection.Valid() && connection.buf == "" && connection.lines == []
    requires Framable(connection.codec) && Concat(chunks) == Encode(connection.codec, messages)
    modifies connection
    ensures connection.handled == messages && connection.buf == ""
  {
    for i := 0 to |chunks|
      invariant connection.Valid()
      invariant Reader(connection.buf, connection.lines) == ReceiveAll(Reader("", []), chunks[..i])
    {
      assert DropLast(chunks[..i + 1]) == chunks[..i];
      connection.OnData(chunks[i]);
    }
    assert chunks[..|chunks|] == chunks;
    FramingRoundTrip(connection.codec, messages, chunks);
  }
}
