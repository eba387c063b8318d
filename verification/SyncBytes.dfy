/**
 Relaying over whole runs with the channels as bytes: whatever chunks the unread bytes of a sender and of a receiver
 arrive in, what they parse to is all that is still under way between the two.
 */
module SyncBytes {
  import opened Wrappers
  import opened SyncModel
  import opened SyncRun
  import opened SyncRelay
  import Wire
  import LineFraming

  /** The messages among lines on their way to the server, and among those on their way to a client. */
  function UpLog(out: seq<Uplink>): seq<Wire.Msg> {
    if out == [] then
      []
    else
      (match out[0] case MsgLine(to, kind, body) => [Wire.Msg(to, kind, body)] case _ => []) + UpLog(out[1..])
  }

  function DownLog(out: seq<Downlink>): seq<Wire.Msg> {
    if out == [] then
      []
    else
      (match out[0] case RelayLine(from, kind, body) => [Wire.Msg(from, kind, body)] case _ => []) + DownLog(out[1..])
  }

  /** The bytes of these messages on a channel. */
  function Encoded(log: seq<Wire.Msg>): string {
    LineFraming.Join(Wire.Lines(log), "")
  }

  predicate Fits(log: seq<Wire.Msg>, max: nat) {
    forall k :: 0 <= k < |log| ==> Wire.Clean(log[k]) && |Wire.Format(log[k])| <= max
  }

  function LogWith(log: seq<Wire.Msg>, peer: int): seq<Payload> {
    if log == [] then
      []
    else
      (if log[0].peer == peer then [Payload(log[0].kind, log[0].body)] else []) + LogWith(log[1..], peer)
  }

  /** The payloads for or from a peer among received lines. */
  function ParsedWith(lines: seq<string>, peer: int): seq<Payload> {
    if lines == [] then
      []
    else
      (match Wire.ParseMsg(lines[0])
       case Some(m) => if Wire.Recognised(lines[0]) && m.peer == peer then [Payload(m.kind, m.body)] else []
       case None => [])
      + ParsedWith(lines[1..], peer)
  }

  lemma {:induction false} UpLogWritten(out: seq<Uplink>, id: int)
    ensures LogWith(UpLog(out), id) == Written(out, id)
  {
    if out != [] {
      UpLogWritten(out[1..], id);
      assert [] + UpLog(out[1..]) == UpLog(out[1..]);
    }
  }

  lemma {:induction false} DownLogRelayed(out: seq<Downlink>, id: int)
    ensures LogWith(DownLog(out), id) == Relayed(out, id)
  {
    if out != [] {
      DownLogRelayed(out[1..], id);
      assert [] + DownLog(out[1..]) == DownLog(out[1..]);
    }
  }

  lemma {:induction false} ParsedIsLog(lines: seq<string>, log: seq<Wire.Msg>, peer: int)
    requires |lines| == |log|
    requires forall k :: 0 <= k < |log| ==> Wire.Recognised(lines[k]) && Wire.ParseMsg(lines[k]) == Some(log[k])
    ensures ParsedWith(lines, peer) == LogWith(log, peer)
  {
    hide Wire.ParseMsg;
    if log != [] {
      assert Wire.ParseMsg(lines[0]) == Some(log[0]);
      ParsedIsLog(lines[1..], log[1..], peer);
    }
  }

  /** Reading the bytes of a log back. */
  lemma ReadBack(log: seq<Wire.Msg>, chunks: seq<string>, max: nat, peer: int)
    requires Fits(log, max) && LineFraming.Flatten(chunks) == Encoded(log)
    ensures var scan := LineFraming.ScanChunks(chunks, max);
            !scan.overflow && scan.tail == "" && ParsedWith(scan.lines, peer) == LogWith(log, peer)
  {
    Wire.StreamRoundTrip(log, chunks, max);
    ParsedIsLog(LineFraming.ScanChunks(chunks, max).lines, log, peer);
  }

  /**
   With distinct ids, in every state of every run, for running clients a and b: the channels hold nothing but
   messages, and what a sent to b is what b got from a, then what the bytes on their way to b parse to, then what the
   bytes on their way from a parse to, for all chunks that these bytes may come in.
   */
  lemma BytesConserved(run: seq<Sys>, steps: seq<Step>, k: nat, a: nat, b: nat, up: seq<string>, down: seq<string>,
                       max: nat)
    requires IsRun(run, steps) && k < |run|
    requires Settled(run[k]) && a < |run[k].clients| && b < |run[k].clients|
    requires run[k].clients[a].phase == Active && run[k].clients[b].phase == Active
    requires Fits(UpLog(run[k].clients[a].out), max) && Fits(DownLog(run[k].server.made[b].out), max)
    requires LineFraming.Flatten(up) == Encoded(UpLog(run[k].clients[a].out))
    requires LineFraming.Flatten(down) == Encoded(DownLog(run[k].server.made[b].out))
    ensures var s := run[k];
            var idA, idB := s.server.made[a].id, s.server.made[b].id;
            && (forall m :: 0 <= m < |s.clients[a].out| ==> s.clients[a].out[m].MsgLine?)
            && (forall m :: 0 <= m < |s.server.made[b].out| ==> s.server.made[b].out[m].RelayLine?)
            && With(s.clients[a].sent, idB)
                 == With(s.clients[b].inbox, idA)
                    + ParsedWith(LineFraming.ScanChunks(down, max).lines, idA)
                    + ParsedWith(LineFraming.ScanChunks(up, max).lines, idB)
  {
    var s := run[k];
    RunKeeps(run, steps, k);
    OnlyMessagesLeft(s, a);
    OnlyMessagesLeft(s, b);
    RelayConservation(run, steps, k, a, b);
    hide Inv;
    hide Apply;
    ReadBack(UpLog(s.clients[a].out), up, max, s.server.made[b].id);
    ReadBack(DownLog(s.server.made[b].out), down, max, s.server.made[a].id);
    UpLogWritten(s.clients[a].out, s.server.made[b].id);
    DownLogRelayed(s.server.made[b].out, s.server.made[a].id);
  }

  lemma OnlyMessagesLeft(s: Sys, i: nat)
    requires Inv(s) && i < |s.server.made| && i < |s.clients| && s.clients[i].phase == Active
    ensures forall m :: 0 <= m < |s.clients[i].out| ==> s.clients[i].out[m].MsgLine?
    ensures forall m :: 0 <= m < |s.server.made[i].out| ==> s.server.made[i].out[m].RelayLine?
  {
    assert PairOk(s, i);
  }
}
