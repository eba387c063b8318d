/**
 The byte encoding of relayed messages, from send_message of one client through the server to the callback of
 another (gumby/experiment.py, gumby/sync.py), over the framing of LineFraming.
 */
module Wire {
  import opened Wrappers
  import opened Text
  import opened LineFraming
  import opened Utf8

  datatype Msg = Msg(peer: int, kind: string, body: string)

  /** `a` and `rest` with a colon between them. */
  function Field(a: string, rest: string): string {
    a + [':'] + rest
  }

  /** send_message of the client, and forwardMessage of the server with the sender in place of the receiver. */
  function Format(m: Msg): string {
    Field("msg", Field(Show(m.peer), Field(m.kind, m.body)))
  }

  /**
   What proto_running makes of a line that starts with msg, on both sides; None where it raises: too few fields, a peer
   that is no number, or a type or body that does not decode.
   */
  function ParseMsg(line: string): Option<Msg> {
    var parts := SplitN(Strip(line), ':', 3);
    if |parts| != 4 || !Decodes(parts[2]) || !Decodes(parts[3]) then
      None
    else
      match ParseInt(parts[1])
      case None => None
      case Some(peer) => Some(Msg(peer, parts[2], parts[3]))
  }

  /** How the lines look: the fields in this order, with a colon between any two. */
  lemma Layout(m: Msg, key: string, value: string)
    ensures Format(m) == "msg:" + Show(m.peer) + ":" + m.kind + ":" + m.body
    ensures FormatSet(key, value) == "set:" + key + ":" + value
  {
    var number := Show(m.peer);
    hide Show;
    assert Format(m) == "msg:" + (number + ([':'] + (m.kind + ([':'] + m.body))));
    assert "msg:" + number + ":" + m.kind + ":" + m.body == "msg:" + (number + ([':'] + (m.kind + ([':'] + m.body))));
    assert FormatSet(key, value) == "set:" + key + ":" + value;
  }

  predicate Recognised(line: string) {
    "msg" <= line
  }

  // ---------------------------------------------------------------------------------------------
  // One line
  // ---------------------------------------------------------------------------------------------

  lemma RStripField(a: string, rest: string)
    ensures RStrip(Field(a, rest)) == Field(a, RStrip(rest))
  {
    RStripAfter(a + [':'], rest);
  }

  lemma SplitField(a: string, rest: string, n: nat)
    requires ':' !in a && n > 0
    ensures SplitN(Field(a, rest), ':', n) == [a] + SplitN(rest, ':', n - 1)
  {
    SplitNAfter(a, ':', rest, n);
  }

  /** Stripping a line takes trailing space off its last field and nothing else. */
  lemma StripLine(tag: string, rest: string)
    requires tag != "" && !IsSpace(tag[0])
    ensures Strip(Field(tag, rest)) == Field(tag, RStrip(rest))
  {
    assert LStrip(Field(tag, rest)) == Field(tag, rest);
    RStripField(tag, rest);
  }

  /** One cut gives the two fields back exactly when the first has no colon. */
  lemma LastCut(a: string, rest: string)
    ensures |SplitN(Field(a, rest), ':', 1)| == 2
    ensures if ':' in a then SplitN(Field(a, rest), ':', 1)[0] != a else SplitN(Field(a, rest), ':', 1) == [a, rest]
  {
    var s := Field(a, rest);
    assert s[|a|] == ':';
    var i := IndexOf(s, ':');
    assert SplitN(s[i + 1..], ':', 0) == [s[i + 1..]];
    if ':' in a {
      var k :| 0 <= k < |a| && a[k] == ':';
      assert s[k] == ':';
      assert SplitN(s, ':', 1)[0] == s[..i] && i < |a|;
    } else {
      SplitField(a, rest, 1);
    }
  }

  /** Splitting a stripped line at its colons. */
  lemma LineParts(tag: string, rest: string, n: nat)
    requires tag != "" && !IsSpace(tag[0]) && ':' !in tag && n > 0
    ensures SplitN(Strip(Field(tag, rest)), ':', n) == [tag] + SplitN(RStrip(rest), ':', n - 1)
  {
    StripLine(tag, rest);
    SplitField(tag, RStrip(rest), n);
  }

  /** The four parts of a message line. */
  lemma MessageParts(m: Msg)
    ensures SplitN(Strip(Format(m)), ':', 3)
         == ["msg"] + ([Show(m.peer)] + SplitN(Field(m.kind, RStrip(m.body)), ':', 1))
  {
    hide RStrip;
    hide SplitN;
    LineParts("msg", Field(Show(m.peer), Field(m.kind, m.body)), 3);
    RStripField(Show(m.peer), Field(m.kind, m.body));
    RStripField(m.kind, m.body);
    SplitField(Show(m.peer), Field(m.kind, RStrip(m.body)), 2);
  }

  lemma FormatRecognised(m: Msg)
    ensures Recognised(Format(m))
  {
  }

  /**
   A message survives encoding and parsing exactly when its type has no colon, its body no trailing space, and both
   decode.
   */
  lemma MessageRoundTrip(m: Msg)
    ensures Recognised(Format(m))
    ensures ParseMsg(Format(m)) == Some(m)
       <==> ':' !in m.kind && RStrip(m.body) == m.body && Decodes(m.kind) && Decodes(m.body)
  {
    hide Recognised;
    FormatRecognised(m);
    MessageParts(m);
    LastCut(m.kind, RStrip(m.body));
    ParseShow(m.peer);
    hide SplitN;
    hide Field;
    hide Strip;
    hide ParseInt;
    hide RStrip;
    hide Format;
    var cut := SplitN(Field(m.kind, RStrip(m.body)), ':', 1);
    var parts := SplitN(Strip(Format(m)), ':', 3);
    assert |parts| == 4 && parts[1] == Show(m.peer) && parts[2] == cut[0] && parts[3] == cut[1];
    hide Decodes;
    assert ParseMsg(Format(m))
        == if Decodes(cut[0]) && Decodes(cut[1]) then Some(Msg(m.peer, cut[0], cut[1])) else None;
  }

  /** set lines of the client. */
  function FormatSet(key: string, value: string): string {
    Field("set", Field(key, value))
  }

  function ParseSet(line: string): Option<(string, string)> {
    var parts := SplitN(Strip(line), ':', 2);
    if |parts| != 3 || !Decodes(parts[1]) || !Decodes(parts[2]) then None else Some((parts[1], parts[2]))
  }

  lemma SetParts(key: string, value: string)
    ensures SplitN(Strip(FormatSet(key, value)), ':', 2) == ["set"] + SplitN(Field(key, RStrip(value)), ':', 1)
  {
    hide RStrip;
    hide SplitN;
    LineParts("set", Field(key, value), 2);
    RStripField(key, value);
  }

  /** A variable's line reads back if and only if both decode, the name has no colon and no space ends the value. */
  lemma SetRoundTrip(key: string, value: string)
    ensures ParseSet(FormatSet(key, value)) == Some((key, value))
       <==> ':' !in key && RStrip(value) == value && Decodes(key) && Decodes(value)
  {
    SetParts(key, value);
    LastCut(key, RStrip(value));
    hide SplitN;
    hide Field;
    hide Strip;
    hide RStrip;
    hide Decodes;
    hide FormatSet;
    var cut := SplitN(Field(key, RStrip(value)), ':', 1);
    var parts := SplitN(Strip(FormatSet(key, value)), ':', 2);
    assert |parts| == 3 && parts[1] == cut[0] && parts[2] == cut[1];
  }

  /**
   Through the framing, in any chunks, a variable survives exactly when moreover neither part holds CRLF and the line
   fits the limit.
   */
  lemma SetSurvivesIff(key: string, value: string, chunks: seq<string>, max: nat)
    requires Flatten(chunks) == Join([FormatSet(key, value)], "")
    ensures var scan := ScanChunks(chunks, max);
            (!scan.overflow && |scan.lines| == 1 && ParseSet(scan.lines[0]) == Some((key, value)))
            <==> && ':' !in key && RStrip(value) == value && Decodes(key) && Decodes(value)
                 && Find(key) < 0 && Find(value) < 0 && |FormatSet(key, value)| <= max
  {
    var line := FormatSet(key, value);
    hide RStrip;
    hide Decodes;
    hide ParseSet;
    ChunkingIrrelevant(chunks, max);
    FramedIff([line], max);
    SetRoundTrip(key, value);
    SetDelimiterIff(key, value);
    hide FormatSet;
    hide Find;
    assert [line][0] == line;
  }

  lemma SetDelimiterIff(key: string, value: string)
    ensures Find(FormatSet(key, value)) < 0 <==> Find(key) < 0 && Find(value) < 0
  {
    FieldHasDelimiter(key, value);
    FieldHasDelimiter("set", Field(key, value));
  }

  // ---------------------------------------------------------------------------------------------
  // Whole streams
  // ---------------------------------------------------------------------------------------------

  /** No CRLF in either part, no colon in the type, no trailing space in the body, and both parts decode. */
  predicate Clean(m: Msg) {
    && Decodes(m.kind)
    && Decodes(m.body)
    && ':' !in m.kind
    && RStrip(m.body) == m.body
    && Find(m.kind) < 0
    && Find(m.body) < 0
  }

  function Lines(log: seq<Msg>): (lines: seq<string>)
    ensures |lines| == |log|
  {
    seq(|log|, k requires 0 <= k < |log| => Format(log[k]))
  }

  /** The log as the server relays it: the sender instead of the receiver. */
  function From(sender: int, log: seq<Msg>): (r: seq<Msg>)
    ensures |r| == |log|
  {
    seq(|log|, k requires 0 <= k < |log| => log[k].(peer := sender))
  }

  /** A line of fields holds CRLF exactly when a field does. */
  lemma FieldHasDelimiter(a: string, b: string)
    ensures Find(Field(a, b)) < 0 <==> Find(a) < 0 && Find(b) < 0
  {
    var s := Field(a, b);
    var i := Find(s);
    assert s[|a|] == ':';
    assert forall k :: k < |a| && DelimiterAt(s, k) ==> DelimiterAt(a, k);
    assert forall k :: k > |a| && DelimiterAt(s, k) ==> DelimiterAt(b, k - |a| - 1);
    assert Find(a) >= 0 ==> DelimiterAt(s, Find(a));
    assert Find(b) >= 0 ==> DelimiterAt(s, |a| + 1 + Find(b));
  }

  lemma FormatDelimiterIff(m: Msg)
    ensures Find(Format(m)) < 0 <==> Find(m.kind) < 0 && Find(m.body) < 0
  {
    assert forall k :: 0 <= k < |Show(m.peer)| ==> Show(m.peer)[k] != '\r';
    FieldHasDelimiter(m.kind, m.body);
    FieldHasDelimiter(Show(m.peer), Field(m.kind, m.body));
    FieldHasDelimiter("msg", Field(Show(m.peer), Field(m.kind, m.body)));
  }

  /** The lines are recognised as the messages of the log, one each. */
  ghost predicate ReadsAs(lines: seq<string>, log: seq<Msg>) {
    && |lines| == |log|
    && forall k :: 0 <= k < |log| ==> Recognised(lines[k]) && ParseMsg(lines[k]) == Some(log[k])
  }

  /**
   In any chunks, framed messages are read back, each as it was sent and nothing else, exactly when every one of them is
   clean and fits the limit.
   */
  lemma StreamRoundTripIff(log: seq<Msg>, chunks: seq<string>, max: nat)
    requires Flatten(chunks) == Join(Lines(log), "")
    ensures var scan := ScanChunks(chunks, max);
            (!scan.overflow && ReadsAs(scan.lines, log))
            <==> forall k :: 0 <= k < |log| ==> Clean(log[k]) && |Format(log[k])| <= max
  {
    hide Format;
    hide ParseMsg;
    hide Recognised;
    hide RStrip;
    hide Decodes;
    ChunkingIrrelevant(chunks, max);
    FramedIff(Lines(log), max);
    forall k | 0 <= k < |log|
      ensures Find(Lines(log)[k]) < 0 <==> Find(log[k].kind) < 0 && Find(log[k].body) < 0
      ensures Recognised(Lines(log)[k])
      ensures ParseMsg(Lines(log)[k]) == Some(log[k])
         <==> ':' !in log[k].kind && RStrip(log[k].body) == log[k].body && Decodes(log[k].kind) && Decodes(log[k].body)
    {
      FormatDelimiterIff(log[k]);
      MessageRoundTrip(log[k]);
    }
  }

  /** Whatever the chunks, the receiver of framed messages hands out lines that parse to those messages. */
  lemma StreamRoundTrip(log: seq<Msg>, chunks: seq<string>, max: nat)
    requires forall k :: 0 <= k < |log| ==> Clean(log[k]) && |Format(log[k])| <= max
    requires Flatten(chunks) == Join(Lines(log), "")
    ensures var scan := ScanChunks(chunks, max);
            !scan.overflow && scan.tail == "" && ReadsAs(scan.lines, log)
  {
    StreamRoundTripIff(log, chunks, max);
    ChunkingIrrelevant(chunks, max);
    FramedIff(Lines(log), max);
  }

  /**
   What the server writes to the client numbered `to` when it handles the lines of the client numbered `sender`: each
   line is parsed, and the type and body are encoded again under the sender's id.
   */
  function RelayTo(to: int, lines: seq<string>, sender: int): seq<string> {
    if lines == [] then
      []
    else
      var rest := RelayTo(to, lines[1..], sender);
      match ParseMsg(lines[0])
      case Some(m) => if Recognised(lines[0]) && m.peer == to then [Format(m.(peer := sender))] + rest else rest
      case None => rest
  }

  /** The messages for one peer. */
  function ForPeer(log: seq<Msg>, to: int): (r: seq<Msg>)
    ensures forall k :: 0 <= k < |r| ==> r[k] in log
  {
    if log == [] then
      []
    else
      (if log[0].peer == to then [log[0]] else []) + ForPeer(log[1..], to)
  }

  lemma {:induction false} RelayedLines(to: int, lines: seq<string>, log: seq<Msg>, sender: int)
    requires ReadsAs(lines, log)
    ensures RelayTo(to, lines, sender) == Lines(From(sender, ForPeer(log, to)))
  {
    hide ParseMsg;
    hide Format;
    if log != [] {
      RelayedLines(to, lines[1..], log[1..], sender);
      assert ParseMsg(lines[0]) == Some(log[0]);
      var rest := ForPeer(log[1..], to);
      assert log[0].peer == to ==>
          Lines(From(sender, [log[0]] + rest)) == [Format(log[0].(peer := sender))] + Lines(From(sender, rest));
      assert [] + rest == rest;
    }
  }

  /**
   End to end: what a client writes, cut into any chunks, parses at the server to what was sent; what the server then
   relays of it to one receiver, cut into any chunks, parses there to exactly the messages for that receiver, in order
   and with the same types and bodies, each under the id of the sender.
   */
  lemma EndToEnd(sender: int, to: int, log: seq<Msg>, up: seq<string>, down: seq<string>, max: nat)
    requires forall k :: 0 <= k < |log| ==> Clean(log[k]) && |Format(log[k])| <= max
    requires forall k :: 0 <= k < |log| ==> |Format(log[k].(peer := sender))| <= max
    requires Flatten(up) == Join(Lines(log), "")
    requires Flatten(down) == Join(RelayTo(to, ScanChunks(up, max).lines, sender), "")
    ensures var atServer, atClient, due := ScanChunks(up, max), ScanChunks(down, max), ForPeer(log, to);
            && !atServer.overflow && !atClient.overflow
            && ReadsAs(atServer.lines, log) && ReadsAs(atClient.lines, From(sender, due))
  {
    hide Format;
    hide ParseMsg;
    hide Recognised;
    StreamRoundTrip(log, up, max);
    RelayedLines(to, ScanChunks(up, max).lines, log, sender);
    var due := From(sender, ForPeer(log, to));
    forall k | 0 <= k < |due| ensures Clean(due[k]) && |Format(due[k])| <= max {
      var m := ForPeer(log, to)[k];
      assert m in log;
      var j :| 0 <= j < |log| && log[j] == m;
      assert due[k] == log[j].(peer := sender);
    }
    StreamRoundTrip(due, down, max);
  }
}
