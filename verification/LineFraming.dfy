/**
 Line framing (gumby/line_receiver.py): bytes arrive in chunks of any size, also while a line is being handled,
 and are cut into lines at CRLF with a limit on the length.  A byte string is a string with one char a byte.
 */
module LineFraming {
  import opened Sequences

  const CRLF: string := "\r\n"

  // ---------------------------------------------------------------------------------------------
  // The one-shot split
  // ---------------------------------------------------------------------------------------------

  predicate DelimiterAt(s: string, i: int) {
    0 <= i && i + 1 < |s| && s[i] == '\r' && s[i + 1] == '\n'
  }

  /** Where the first CRLF starts, or -1. */
  function Find(s: string): (i: int)
    ensures i == -1 || DelimiterAt(s, i)
    ensures forall k :: DelimiterAt(s, k) ==> 0 <= i <= k
  {
    if |s| < 2 then
      -1
    else if s[0] == '\r' && s[1] == '\n' then
      0
    else
      var i := Find(s[1..]);
      assert forall k :: DelimiterAt(s, k) && k > 0 ==> DelimiterAt(s[1..], k - 1);
      if i < 0 then -1 else i + 1
  }

  datatype Pieces = Pieces(lines: seq<string>, tail: string)

  /** Every delimited line of a byte string, and what follows the last delimiter. */
  function SplitLines(s: string): (p: Pieces)
    decreases |s|
  {
    var i := Find(s);
    if i < 0 then
      Pieces([], s)
    else
      var p := SplitLines(s[i + 2..]);
      Pieces([s[..i]] + p.lines, p.tail)
  }

  function Join(lines: seq<string>, tail: string): string {
    if lines == [] then tail else lines[0] + CRLF + Join(lines[1..], tail)
  }

  /** The lines before the first one longer than `max`. */
  function Within(lines: seq<string>, max: nat): (ok: seq<string>)
    ensures ok <= lines
  {
    if lines == [] || |lines[0]| > max then [] else [lines[0]] + Within(lines[1..], max)
  }

  /** The lines handed out, the undelimited tail, and whether the length limit was exceeded. */
  datatype Scan = Scan(lines: seq<string>, tail: string, overflow: bool)

  /** What a whole byte string amounts to: lines up to the first that is too long. */
  function OneShot(s: string, max: nat): Scan {
    var p := SplitLines(s);
    var ok := Within(p.lines, max);
    if |ok| < |p.lines| || |p.tail| >= max + 2 then Scan(ok, "", true) else Scan(ok, p.tail, false)
  }

  // ---------------------------------------------------------------------------------------------
  // Facts about the split
  // ---------------------------------------------------------------------------------------------

  /** Splitting loses nothing. */
  lemma {:induction false} JoinSplit(s: string)
    ensures Join(SplitLines(s).lines, SplitLines(s).tail) == s
    decreases |s|
  {
    var i := Find(s);
    if i >= 0 {
      JoinSplit(s[i + 2..]);
      assert s == s[..i] + CRLF + s[i + 2..];
    }
  }

  /** Splitting undoes joining: lines and tail without CRLF are found again. */
  lemma {:induction false} SplitJoin(lines: seq<string>, tail: string)
    requires forall k :: 0 <= k < |lines| ==> Find(lines[k]) < 0
    requires Find(tail) < 0
    ensures SplitLines(Join(lines, tail)) == Pieces(lines, tail)
  {
    if lines != [] {
      var s := Join(lines, tail);
      FindAfter(lines[0], Join(lines[1..], tail));
      assert s == lines[0] + (CRLF + Join(lines[1..], tail));
      assert s[..|lines[0]|] == lines[0];
      assert s[|lines[0]| + 2..] == Join(lines[1..], tail);
      SplitJoin(lines[1..], tail);
    }
  }

  lemma FindAfter(line: string, rest: string)
    requires Find(line) < 0
    ensures Find(line + CRLF + rest) == |line|
  {
    var s := line + CRLF + rest;
    assert DelimiterAt(s, |line|);
    assert forall k :: 0 <= k < |line| ==> s[k] == line[k];
    assert forall k :: k < |line| && DelimiterAt(s, k) ==> DelimiterAt(line, k);
  }

  /** A first delimiter stays the first when more bytes follow. */
  lemma FindPrefix(a: string, b: string)
    requires Find(a) >= 0
    ensures Find(a + b) == Find(a)
  {
    assert DelimiterAt(a + b, Find(a));
    assert forall k :: k < Find(a) && DelimiterAt(a + b, k) ==> DelimiterAt(a, k);
  }

  /** Splitting can go on from the tail. */
  lemma {:induction false} SplitMore(a: string, b: string)
    ensures var p, q := SplitLines(a), SplitLines(SplitLines(a).tail + b);
            SplitLines(a + b) == Pieces(p.lines + q.lines, q.tail)
    decreases |a|
  {
    hide SplitLines;
    hide Find;
    SplitStep(a);
    var i := Find(a);
    if i < 0 {
      assert [] + SplitLines(a + b).lines == SplitLines(a + b).lines;
    } else {
      var rest := a[i + 2..];
      FindPrefix(a, b);
      assert (a + b)[..i] == a[..i];
      assert (a + b)[i + 2..] == rest + b;
      SplitMore(rest, b);
      SplitStep(a + b);
      var p, q := SplitLines(rest), SplitLines(SplitLines(rest).tail + b);
      assert [a[..i]] + (p.lines + q.lines) == [a[..i]] + p.lines + q.lines;
    }
  }

  lemma SplitStep(s: string)
    ensures var i := Find(s);
            SplitLines(s) == if i < 0 then Pieces([], s)
                        else Pieces([s[..i]] + SplitLines(s[i + 2..]).lines, SplitLines(s[i + 2..]).tail)
  {
  }

  lemma {:induction false} WithinMore(a: seq<string>, b: seq<string>, max: nat)
    ensures Within(a + b, max) == if |Within(a, max)| < |a| then Within(a, max) else a + Within(b, max)
  {
    if a == [] {
      assert a + b == b;
    } else {
      assert (a + b)[1..] == a[1..] + b;
      WithinMore(a[1..], b, max);
    }
  }

  /** An undelimited tail at the limit makes whatever line it becomes too long. */
  lemma LongTail(tail: string, b: string, max: nat)
    requires Find(tail) < 0 && |tail| >= max + 2
    ensures OneShot(tail + b, max) == Scan([], "", true)
  {
    var s := tail + b;
    var i := Find(s);
    if 0 <= i && i <= max {
      assert DelimiterAt(tail, i);
    }
  }

  lemma {:induction false} TailHasNoDelimiter(s: string)
    ensures Find(SplitLines(s).tail) < 0
    decreases |s|
  {
    if Find(s) >= 0 {
      TailHasNoDelimiter(s[Find(s) + 2..]);
    }
  }

  function Prepend(lines: seq<string>, scan: Scan): Scan {
    scan.(lines := lines + scan.lines)
  }

  /** Bytes can be scanned in two goes; after an overflow further bytes change nothing. */
  lemma ScanMore(a: string, b: string, max: nat)
    ensures var first := OneShot(a, max);
            OneShot(a + b, max) == if first.overflow then first else Prepend(first.lines, OneShot(first.tail + b, max))
  {
    var p, q := SplitLines(a), SplitLines(SplitLines(a).tail + b);
    SplitMore(a, b);
    WithinMore(p.lines, q.lines, max);
    if |Within(p.lines, max)| == |p.lines| {
      assert Within(p.lines, max) == p.lines;
      if |p.tail| >= max + 2 {
        TailHasNoDelimiter(a);
        LongTail(p.tail, b, max);
      }
    }
  }

  lemma PrependTwice(a: seq<string>, b: seq<string>, scan: Scan)
    ensures Prepend(a, Prepend(b, scan)) == Prepend(a + b, scan)
  {
    assert a + (b + scan.lines) == a + b + scan.lines;
  }

  function Flatten(chunks: seq<string>): string {
    if chunks == [] then "" else Flatten(chunks[..|chunks| - 1]) + chunks[|chunks| - 1]
  }

  /** What the receiver has handed out and kept after a number of chunks. */
  function ScanChunks(chunks: seq<string>, max: nat): Scan {
    if chunks == [] then
      Scan([], "", false)
    else
      var scan := ScanChunks(chunks[..|chunks| - 1], max);
      if scan.overflow then scan else Prepend(scan.lines, OneShot(scan.tail + chunks[|chunks| - 1], max))
  }

  /** However the same bytes are cut into chunks, the outcome is that of the one-shot split. */
  lemma {:induction false} ChunkingIrrelevant(chunks: seq<string>, max: nat)
    ensures ScanChunks(chunks, max) == OneShot(Flatten(chunks), max)
  {
    if chunks != [] {
      ChunkingIrrelevant(chunks[..|chunks| - 1], max);
      ScanMore(Flatten(chunks[..|chunks| - 1]), chunks[|chunks| - 1], max);
    }
  }

  /** Framed lines within the limit come out as they went in. */
  lemma {:induction false} FramedLines(lines: seq<string>, max: nat)
    requires forall k :: 0 <= k < |lines| ==> Find(lines[k]) < 0 && |lines[k]| <= max
    ensures OneShot(Join(lines, ""), max) == Scan(lines, "", false)
  {
    SplitJoin(lines, "");
    AllWithin(lines, max);
  }

  lemma {:induction false} AllWithin(lines: seq<string>, max: nat)
    requires forall k :: 0 <= k < |lines| ==> |lines[k]| <= max
    ensures Within(lines, max) == lines
  {
    if lines != [] {
      AllWithin(lines[1..], max);
    }
  }

  /** Every delimiter ends one line. */
  lemma SplitCount(s: string, rest: string)
    ensures |SplitLines(s + CRLF + rest).lines| == |SplitLines(s).lines| + 1 + |SplitLines(rest).lines|
  {
    var tail := SplitLines(s).tail;
    SplitMore(s, CRLF + rest);
    TailHasNoDelimiter(s);
    Grouped(s, CRLF, rest);
    Grouped(tail, CRLF, rest);
    SplitAtFirst(tail, rest);
    hide SplitLines;
    hide Find;
  }

  lemma SplitAtFirst(line: string, rest: string)
    requires Find(line) < 0
    ensures SplitLines(line + CRLF + rest) == Pieces([line] + SplitLines(rest).lines, SplitLines(rest).tail)
  {
    FindAfter(line, rest);
    var s := line + CRLF + rest;
    assert s[..|line|] == line && s[|line| + 2..] == rest;
  }

  lemma {:induction false} JoinCount(lines: seq<string>)
    ensures |SplitLines(Join(lines, "")).lines| >= |lines|
    ensures |SplitLines(Join(lines, "")).lines| == |lines| ==> forall k :: 0 <= k < |lines| ==> Find(lines[k]) < 0
  {
    if lines != [] {
      JoinCount(lines[1..]);
      SplitCount(lines[0], Join(lines[1..], ""));
      SplitStep(lines[0]);
    }
  }

  lemma {:induction false} WithinAll(lines: seq<string>, max: nat)
    ensures Within(lines, max) == lines <==> forall k :: 0 <= k < |lines| ==> |lines[k]| <= max
  {
    if lines != [] {
      WithinAll(lines[1..], max);
    }
  }

  /** Framed lines come out as many as they went in exactly when they are free of CRLF and fit the limit. */
  lemma FramedIff(lines: seq<string>, max: nat)
    ensures var scan := OneShot(Join(lines, ""), max);
            (!scan.overflow && |scan.lines| == |lines|)
            <==> forall k :: 0 <= k < |lines| ==> Find(lines[k]) < 0 && |lines[k]| <= max
    ensures (forall k :: 0 <= k < |lines| ==> Find(lines[k]) < 0 && |lines[k]| <= max) ==>
              OneShot(Join(lines, ""), max) == Scan(lines, "", false)
  {
    JoinCount(lines);
    if forall k :: 0 <= k < |lines| ==> Find(lines[k]) < 0 {
      SplitJoin(lines, "");
      WithinAll(lines, max);
    }
    if forall k :: 0 <= k < |lines| ==> Find(lines[k]) < 0 && |lines[k]| <= max {
      FramedLines(lines, max);
    }
  }

  /** One turn of the receiving loop. */
  lemma ScanLine(s: string, max: nat)
    ensures Find(s) < 0 ==>
              OneShot(s, max) == if |s| >= max + 2 then Scan([], "", true) else Scan([], s, false)
    ensures Find(s) >= 0 ==>
              OneShot(s, max) == if Find(s) > max then Scan([], "", true)
                                 else Prepend([s[..Find(s)]], OneShot(s[Find(s) + 2..], max))
  {
  }

  // ---------------------------------------------------------------------------------------------
  // The receiver
  // ---------------------------------------------------------------------------------------------

  /** What happens while a line is handled: chunks arrive, and the transport may start closing. */
  datatype Meanwhile = Meanwhile(chunks: seq<string>, closes: bool)

  function FlattenAll(groups: seq<Meanwhile>): string {
    if groups == [] then "" else FlattenAll(groups[..|groups| - 1]) + Flatten(groups[|groups| - 1].chunks)
  }

  lemma FlattenStep(chunks: seq<string>, k: nat)
    requires k < |chunks|
    ensures Flatten(chunks[..k + 1]) == Flatten(chunks[..k]) + chunks[k]
  {
    assert chunks[..k + 1][..k] == chunks[..k];
  }

  /** What was received is the chunk with the groups of chunks that arrived re-entrantly since. */
  ghost predicate Consumed(before: string, groups: seq<Meanwhile>, data: string, received: string,
                           left: seq<Meanwhile>) {
    && |left| <= |groups|
    && left == groups[|groups| - |left|..]
    && received == before + data + FlattenAll(groups[..|groups| - |left|])
  }

  /** Of what happened since, exactly the last closed the transport, or nothing did. */
  predicate ClosedBy(groups: seq<Meanwhile>, left: seq<Meanwhile>, closing: bool) {
    var n := |groups| - |left|;
    && n >= 0
    && left == groups[n..]
    && (forall k :: 0 <= k < n - 1 ==> !groups[k].closes)
    && (if n == 0 then !closing else closing == groups[n - 1].closes)
  }

  lemma NothingConsumed(before: string, groups: seq<Meanwhile>, data: string)
    ensures Consumed(before, groups, data, before + data, groups)
  {
    assert before + data + "" == before + data;
  }

  lemma GroupConsumed(before: string, groups: seq<Meanwhile>, data: string, received: string,
                      left: seq<Meanwhile>)
    requires Consumed(before, groups, data, received, left)
    ensures left != [] ==> Consumed(before, groups, data, received + Flatten(left[0].chunks), left[1..])
  {
    if left != [] {
      var n := |groups| - |left|;
      assert groups[..n + 1][..n] == groups[..n];
      assert groups[n] == left[0];
    }
  }

  /** What was received is the chunks in order, each with the groups of chunks that arrived while it was handled. */
  ghost predicate Interleaved(chunks: seq<string>, groups: seq<Meanwhile>, received: string, left: seq<Meanwhile>)
    decreases |chunks|, 0
  {
    if chunks == [] then
      received == "" && left == groups
    else
      FollowedBy(chunks[..|chunks| - 1], chunks[|chunks| - 1], groups, received, left)
  }

  ghost predicate FollowedBy(chunks: seq<string>, last: string, groups: seq<Meanwhile>, received: string,
                             left: seq<Meanwhile>)
    decreases |chunks|, 1
  {
    exists r, l :: Interleaved(chunks, groups, r, l) && Consumed(r, l, last, received, left)
  }

  lemma InterleaveStep(chunks: seq<string>, k: nat, groups: seq<Meanwhile>, r: string, l: seq<Meanwhile>)
    requires k < |chunks| && Interleaved(chunks[..k], groups, r, l)
    ensures forall received, left ::
              Consumed(r, l, chunks[k], received, left) ==> Interleaved(chunks[..k + 1], groups, received, left)
  {
    assert chunks[..k + 1][..k] == chunks[..k];
  }

  /** Without groups in between it is the concatenation of the chunks. */
  lemma {:induction false} NoneBetween(chunks: seq<string>, received: string, left: seq<Meanwhile>)
    requires Interleaved(chunks, [], received, left)
    ensures received == Flatten(chunks) && left == []
  {
    if chunks != [] {
      var init, last := chunks[..|chunks| - 1], chunks[|chunks| - 1];
      var r, l :| Interleaved(init, [], r, l) && Consumed(r, l, last, received, left);
      NoneBetween(init, r, l);
    }
  }

  lemma {:induction false} FlattenConcat(a: seq<string>, b: seq<string>)
    ensures Flatten(a + b) == Flatten(a) + Flatten(b)
  {
    if b == [] {
      assert a + b == a;
    } else {
      assert (a + b)[..|a + b| - 1] == a + b[..|b| - 1];
      FlattenConcat(a, b[..|b| - 1]);
    }
  }

  /**
   `arrivals` stands for the environment: what happens while each of the next lines is handled.
   `received` is everything that has arrived so far.
   */
  class LineReceiver {
    const maxLength: nat
    var buffer: string
    var busy: bool
    var lines: seq<string>
    var overflowed: bool
    var closing: bool
    var arrivals: seq<Meanwhile>
    ghost var received: string

    constructor (maxLength: nat, arrivals: seq<Meanwhile>)
      ensures this.maxLength == maxLength && this.arrivals == arrivals
      ensures Valid() && !busy && !overflowed && !closing && lines == [] && received == "" && buffer == ""
    {
      this.maxLength := maxLength;
      this.arrivals := arrivals;
      buffer, busy, lines, overflowed, closing, received := "", false, [], false, false, "";
    }

    /** The bytes so far amount to the lines handed out plus what the buffer amounts to. */
    ghost predicate Consistent()
      reads this
    {
      if overflowed then
        OneShot(received, maxLength) == Scan(lines, "", true)
      else
        OneShot(received, maxLength) == Prepend(lines, OneShot(buffer, maxLength))
    }

    /** Between calls the buffer holds the undelimited tail, unless the transport started closing. */
    ghost predicate Valid()
      reads this
    {
      && Consistent()
      && (busy || closing || OneShot(received, maxLength) == Scan(lines, buffer, overflowed))
    }

    /** data_received.  A transport that is closing, also after an overflow, delivers nothing more. */
    method DataReceived(data: string)
      requires Valid() && !overflowed && !closing
      modifies this
      ensures Valid() && busy == old(busy)
      ensures Consumed(old(received), old(arrivals), data, received, arrivals)
      ensures busy ==> received == old(received) + data && buffer == old(buffer) + data && lines == old(lines)
                       && arrivals == old(arrivals) && !overflowed && !closing
      ensures !(overflowed && closing) && ClosedBy(old(arrivals), arrivals, closing)
      decreases if busy then 0 else 2
    {
      hide OneShot;
      Append(data);
      NothingConsumed(old(received), old(arrivals), data);
      if busy {
        return;
      }
      hide Consumed;
      busy := true;
      while buffer != ""
        invariant busy && !overflowed && !closing && Consistent()
        invariant Consumed(old(received), old(arrivals), data, received, arrivals)
        invariant ClosedBy(old(arrivals), arrivals, false)
        decreases |arrivals|, |buffer|
      {
        ScanLine(buffer, maxLength);
        var i := Find(buffer);
        if i < 0 {
          if |buffer| >= maxLength + |CRLF| {
            buffer := "";
            overflowed := true;
          }
          assert lines + [] == lines;
          break;
        }
        var line := buffer[..i];
        buffer := buffer[i + 2..];
        if |line| > maxLength {
          buffer := "";
          overflowed := true;
          assert lines + [] == lines;
          break;
        }
        PrependTwice(lines, [line], OneShot(buffer, maxLength));
        GroupConsumed(old(received), old(arrivals), data, received, arrivals);
        LineReceived(line);
        if closing {
          break;
        }
      }
      if buffer == "" && !overflowed {
        ScanLine(buffer, maxLength);
        assert lines + [] == lines;
      }
      busy := false;
    }

    /** More bytes for the buffer. */
    method Append(data: string)
      requires Consistent() && !overflowed
      modifies this`buffer, this`received
      ensures Consistent()
      ensures buffer == old(buffer) + data && received == old(received) + data
    {
      ScanMore(received, data, maxLength);
      ScanMore(buffer, data, maxLength);
      var scan := OneShot(buffer, maxLength);
      PrependTwice(lines, scan.lines, OneShot(scan.tail + data, maxLength));
      hide OneShot;
      received := received + data;
      buffer := buffer + data;
    }

    /** line_received of either subclass: hand out the line; meanwhile chunks may arrive and the transport may close. */
    method LineReceived(line: string)
      requires busy && !overflowed && !closing
      requires OneShot(received, maxLength) == Prepend(lines + [line], OneShot(buffer, maxLength))
      modifies this
      ensures busy && !overflowed && Consistent()
      ensures lines == old(lines) + [line]
      ensures closing <==> old(arrivals) != [] && old(arrivals)[0].closes
      ensures if old(arrivals) == [] then arrivals == [] && buffer == old(buffer) && received == old(received)
              else arrivals == old(arrivals)[1..] && received == old(received) + Flatten(old(arrivals)[0].chunks)
      decreases 1
    {
      hide OneShot;
      lines := lines + [line];
      assert Consistent();
      if arrivals != [] {
        var chunks, closes := arrivals[0].chunks, arrivals[0].closes;
        arrivals := arrivals[1..];
        assert Flatten(chunks[..0]) == "";
        hide Flatten;
        hide Consistent;
        for k := 0 to |chunks|
          invariant busy && !overflowed && !closing && Consistent()
          invariant lines == old(lines) + [line] && arrivals == old(arrivals)[1..]
          invariant received == old(received) + Flatten(chunks[..k])
        {
          FlattenStep(chunks, k);
          DataReceived(chunks[k]);
        }
        assert chunks[..|chunks|] == chunks;
        closing := closes;
      }
    }

    /**
     A connection fed chunk by chunk until it overflows or closes.  What arrived is the first `fed` of the chunks with
     what came in between; the outcome is that of the one-shot split of it, except that the lines still in the buffer
     of a closing connection are not handed out.
     */
    method Feed(chunks: seq<string>) returns (ghost fed: nat)
      requires Valid() && !busy && !overflowed && !closing && received == ""
      modifies this
      ensures fed <= |chunks| && (!overflowed && !closing ==> fed == |chunks|)
      ensures Interleaved(chunks[..fed], old(arrivals), received, arrivals)
      ensures !closing ==> OneShot(received, maxLength) == Scan(lines, buffer, overflowed)
      ensures closing ==> OneShot(received, maxLength) == Prepend(lines, OneShot(buffer, maxLength))
      ensures old(arrivals) == [] ==> Scan(lines, buffer, overflowed) == OneShot(Flatten(chunks), maxLength)
    {
      hide OneShot;
      fed := 0;
      for k := 0 to |chunks|
        invariant Valid() && !busy && !(overflowed && closing)
        invariant fed <= k && (!overflowed && !closing ==> fed == k)
        invariant old(arrivals) == [] ==> arrivals == [] && !closing
        invariant Interleaved(chunks[..fed], old(arrivals), received, arrivals)
      {
        if !overflowed && !closing {
          InterleaveStep(chunks, k, old(arrivals), received, arrivals);
          DataReceived(chunks[k]);
          fed := k + 1;
        }
      }
      if old(arrivals) == [] {
        NoneBetween(chunks[..fed], received, arrivals);
        assert Flatten(chunks) == received + Flatten(chunks[fed..]) by {
          assert chunks == chunks[..fed] + chunks[fed..];
          FlattenConcat(chunks[..fed], chunks[fed..]);
        }
        if fed == |chunks| {
          assert chunks[..fed] == chunks;
        } else {
          ScanMore(received, Flatten(chunks[fed..]), maxLength);
        }
      }
    }
  }
}
