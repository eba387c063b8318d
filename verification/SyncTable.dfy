/**
 The table of variables over whole runs: every client is given one and the same table, with the same random number, and
 it has for each client exactly the variables of that client, each with its last value, next to the clock difference
 and the defaults for port and host.
 */
module SyncTable {
  import opened Wrappers
  import opened SyncModel
  import opened SyncRun
  import SyncIds
  import SyncRelay

  // ---------------------------------------------------------------------------------------------
  // What the server puts in the table
  // ---------------------------------------------------------------------------------------------

  /** All variables of the subscriber as they are, and port and host where it has set none. */
  ghost predicate EntryOf(entry: Vars, p: Conn) {
    && entry.Keys == p.vars.Keys + {PORT, HOST}
    && (forall name :: name in p.vars ==> entry[name] == p.vars[name])
    && (PORT !in p.vars ==> entry[PORT] == Num((p.id + 12000) as real))
    && (HOST !in p.vars ==> entry[HOST] == HostOf(p.host))
  }

  lemma SubscriberEntry(p: Conn)
    ensures EntryOf(SubscriberVars(p), p)
  {
    assert PORT != HOST by {
      assert PORT[0] != HOST[0];
    }
  }

  /** The table has entries for exactly the ids of the ready subscribers. */
  lemma {:induction false} TableKeys(made: seq<Conn>, ready: seq<nat>, id: int)
    requires forall k :: 0 <= k < |ready| ==> ready[k] < |made|
    ensures id in TableOf(made, ready) <==> exists k :: 0 <= k < |ready| && made[ready[k]].id == id
  {
    hide SubscriberVars;
    if ready != [] {
      var init := ready[..|ready| - 1];
      TableKeys(made, init, id);
      assert forall k :: 0 <= k < |init| ==> made[init[k]].id == made[ready[k]].id;
    }
  }

  /** A subscriber has its own entry, unless a later one has the same id. */
  lemma {:induction false} TableEntry(made: seq<Conn>, ready: seq<nat>, k: nat)
    requires k < |ready| && forall j :: 0 <= j < |ready| ==> ready[j] < |made|
    requires forall l :: k < l < |ready| ==> made[ready[l]].id != made[ready[k]].id
    ensures made[ready[k]].id in TableOf(made, ready)
    ensures EntryOf(TableOf(made, ready)[made[ready[k]].id], made[ready[k]])
  {
    hide EntryOf;
    hide SubscriberVars;
    if k < |ready| - 1 {
      TableEntry(made, ready[..|ready| - 1], k);
    } else {
      SubscriberEntry(made[ready[k]]);
    }
  }

  // ---------------------------------------------------------------------------------------------
  // One table for everybody
  // ---------------------------------------------------------------------------------------------

  /** The table fits the connections: one entry per id, that of the last connection with the id. */
  ghost predicate Fits(t: Table, made: seq<Conn>) {
    && (forall id :: id in t <==> id in Ids(made))
    && forall j :: 0 <= j < |made| && LastWithId(made, j) ==> made[j].id in t && EntryOf(t[made[j].id], made[j])
  }

  ghost predicate LastWithId(made: seq<Conn>, j: nat)
    requires j < |made|
  {
    forall l :: j < l < |made| ==> made[l].id != made[j].id
  }

  /** The client was given the table. */
  predicate Informed(c: Client) {
    c.phase == AwaitGo || c.phase == Active
  }

  /** An informed client has the table and the number, and as its offset that of its own entry. */
  predicate Has(c: Client, t: Table, seed: int) {
    && c.table == t && c.random == seed
    && c.myId in t && TIME_OFFSET in t[c.myId] && c.offset == t[c.myId][TIME_OFFSET]
  }

  ghost predicate PairHas(c: Client, p: Conn, t: Table, seed: int) {
    && (Informed(c) ==> Has(c, t, seed))
    && forall line :: line in p.out && line.TableLine? ==> line == TableLine(t, seed)
  }

  ghost predicate TableIs(s: Sys, t: Table, seed: int) {
    && |s.server.made| <= |s.clients|
    && (forall i :: 0 <= i < |s.server.made| ==> PairHas(s.clients[i], s.server.made[i], t, seed))
    && (Tabled(s.server) ==> Fits(t, s.server.made))
  }

  /** Nobody has a table, and none is on its way, before all are ready. */
  lemma NoTableYet(s: Sys, i: nat)
    requires Core(s) && i < |s.server.made| && !Tabled(s.server)
    ensures !Informed(s.clients[i]) && forall line :: line in s.server.made[i].out ==> !line.TableLine?
  {
    assert PairOk(s, i);
  }

  predicate SameTag(p: Conn, q: Conn) {
    q.id == p.id && q.host == p.host && q.vars == p.vars
  }

  lemma {:induction false} FitsSame(t: Table, made: seq<Conn>, made': seq<Conn>)
    requires |made| == |made'| && forall j :: 0 <= j < |made| ==> SameTag(made[j], made'[j])
    requires Fits(t, made)
    ensures Fits(t, made')
  {
    assert Ids(made) == Ids(made');
    forall j | 0 <= j < |made'| && LastWithId(made', j)
      ensures made'[j].id in t && EntryOf(t[made'[j].id], made'[j])
    {
      assert LastWithId(made, j) by {
        forall l | j < l < |made| ensures made[l].id != made[j].id {
          assert SameTag(made[l], made'[l]) && SameTag(made[j], made'[j]);
        }
      }
      assert SameTag(made[j], made'[j]);
    }
  }

  /** The pair keeps what it has: no new holder and no new table line. */
  ghost predicate PairKeeps(c: Client, p: Conn, c': Client, p': Conn) {
    && (Informed(c') ==> Informed(c) && c' == c.(phase := c'.phase, goAt := c'.goAt, startAt := c'.startAt,
                                                  out := c'.out, sent := c'.sent, inbox := c'.inbox))
    && forall line :: line in p'.out && line.TableLine? ==> line in p.out
  }

  lemma {:induction false} QuietStep(s: Sys, r: Sys, t: Table, seed: int)
    requires TableIs(s, t, seed) && |r.server.made| == |s.server.made| && |r.clients| == |s.clients|
    requires Tabled(r.server) ==> Tabled(s.server)
    requires Tabled(s.server) ==> forall j :: 0 <= j < |s.server.made| ==> SameTag(s.server.made[j], r.server.made[j])
    requires forall i :: 0 <= i < |s.server.made| ==>
               PairKeeps(s.clients[i], s.server.made[i], r.clients[i], r.server.made[i])
    ensures TableIs(r, t, seed)
  {
    hide Tabled;
    hide Fits;
    hide Has;
    hide SameTag;
    if Tabled(r.server) {
      FitsSame(t, s.server.made, r.server.made);
    }
    forall i | 0 <= i < |r.server.made| ensures PairHas(r.clients[i], r.server.made[i], t, seed) {
      assert PairKeeps(s.clients[i], s.server.made[i], r.clients[i], r.server.made[i]);
      assert PairHas(s.clients[i], s.server.made[i], t, seed);
      HasKept(s.clients[i], s.server.made[i], r.clients[i], r.server.made[i], t, seed);
    }
  }

  lemma HasKept(c: Client, p: Conn, c': Client, p': Conn, t: Table, seed: int)
    requires PairHas(c, p, t, seed) && PairKeeps(c, p, c', p')
    ensures PairHas(c', p', t, seed)
  {
  }

  // ---------------------------------------------------------------------------------------------
  // Every step keeps the table
  // ---------------------------------------------------------------------------------------------

  lemma ClientStepTable(s: Sys, step: Step, t: Table, seed: int)
    requires Core(s) && TableIs(s, t, seed) && Enabled(s, step)
    requires step.Connect? || step.WriteJob? || step.Send?
    ensures TableIs(Apply(s, step), t, seed)
  {
    assert PairOk(s, step.i);
    hide PairOk;
    hide TableIs;
    var r := Apply(s, step);
    forall i | 0 <= i < |s.server.made|
      ensures PairKeeps(s.clients[i], s.server.made[i], r.clients[i], r.server.made[i])
    {
    }
    QuietStep(s, r, t, seed);
  }

  lemma AcceptTable(s: Sys, t: Table, seed: int)
    requires Core(s) && TableIs(s, t, seed) && Enabled(s, Accept)
    ensures TableIs(Apply(s, Accept), t, seed)
  {
    var r, m := Apply(s, Accept), |s.server.made|;
    assert PairOk(s, m);
    assert !Tabled(s.server) && !Tabled(r.server);
    forall i | 0 <= i < |r.server.made| ensures PairHas(r.clients[i], r.server.made[i], t, seed) {
      if i < m {
        NoTableYet(s, i);
      }
    }
  }

  lemma PushTable(s: Sys, t: Table, seed: int)
    requires Core(s) && TableIs(s, t, seed) && Enabled(s, PushIds)
    ensures TableIs(Apply(s, PushIds), t, seed)
  {
    hide Core;
    hide TableIs;
    QuietStep(s, Apply(s, PushIds), t, seed);
  }

  lemma SetupTable(s: Sys, i: nat, now: real, n: int, t: Table, seed: int)
    requires Core(s) && TableIs(s, t, seed) && Enabled(s, ServerReads(i, now, n))
    requires s.server.made[i].phase == Init && s.clients[i].out[0] != ReadyLine
    ensures TableIs(Apply(s, ServerReads(i, now, n)), t, seed)
  {
    SetupHead(s, i);
    SetupEffect(s.server, i, s.clients[i].out[0], now, n);
    hide OnLine;
    assert SlotOk(s.server, i);
    assert !Tabled(s.server);
    hide Core;
    QuietStep(s, Apply(s, ServerReads(i, now, n)), t, seed);
  }

  lemma ReceivedLine(s: Server, i: nat, line: Uplink, now: real, n: int)
    requires SlotsExist(s) && i < |s.made| && s.made[i].phase == VarsReceived
    ensures var r := OnLine(s, i, line, now, n);
            && |r.made| == |s.made| && r.ready == s.ready && r.expected == s.expected
            && r.made == s.made[i := s.made[i].(phase := r.made[i].phase)]
  {
  }

  lemma ReceivedTable(s: Sys, i: nat, now: real, n: int, t: Table, seed: int)
    requires Core(s) && TableIs(s, t, seed) && Enabled(s, ServerReads(i, now, n))
    requires s.server.made[i].phase == VarsReceived
    ensures TableIs(Apply(s, ServerReads(i, now, n)), t, seed)
  {
    hide Core;
    ReceivedLine(s.server, i, s.clients[i].out[0], now, n);
    hide OnLine;
    QuietStep(s, Apply(s, ServerReads(i, now, n)), t, seed);
  }

  lemma MessageTable(s: Sys, i: nat, now: real, n: int, t: Table, seed: int)
    requires Inv(s) && TableIs(s, t, seed) && Enabled(s, ServerReads(i, now, n))
    requires s.server.made[i].phase == Running
    ensures TableIs(Apply(s, ServerReads(i, now, n)), t, seed)
  {
    SyncRelay.ReadsMessageEffect(s, i, now, n);
    hide Inv;
    var r := Apply(s, ServerReads(i, now, n));
    assert r.server.ready == s.server.ready && r.server.expected == s.server.expected;
    hide Apply;
    QuietStep(s, r, t, seed);
  }

  lemma StartTable(s: Sys, now: real, t: Table, seed: int)
    requires Inv(s) && TableIs(s, t, seed) && Enabled(s, StartBody(now))
    ensures TableIs(Apply(s, StartBody(now)), t, seed)
  {
    StartEffect(s, now);
    hide StartStep;
    hide Inv;
    QuietStep(s, Apply(s, StartBody(now)), t, seed);
  }

  /** The line that the last subscriber to get ready triggers carries a table that fits. */
  lemma {:induction false} ReadyTableFits(s: Server, seed: int)
    requires SlotsExist(s) && Iota(s.ready) && |s.made| == |s.ready| + 1
    ensures Fits(ReadyTable(s, seed).table, s.made)
  {
    var i := |s.ready|;
    var made, ready := s.made[i := s.made[i].(ready := true)], s.ready + [i];
    assert Ids(made) == Ids(s.made);
    forall id ensures id in TableOf(made, ready) <==> id in Ids(made) {
      TableKeys(made, ready, id);
      assert forall k :: 0 <= k < |ready| ==> ready[k] == k && made[ready[k]].id == Ids(made)[k];
      hide TableOf;
    }
    forall j | 0 <= j < |s.made| && LastWithId(s.made, j)
      ensures s.made[j].id in TableOf(made, ready) && EntryOf(TableOf(made, ready)[s.made[j].id], s.made[j])
    {
      assert ready[j] == j;
      TableEntry(made, ready, j);
    }
  }

  lemma FirstTable(c: Client, p: Conn, c': Client, p': Conn, t: Table, seed: int)
    requires !Informed(c) && c'.phase == c.phase && forall line :: line in p.out ==> !line.TableLine?
    requires p'.out == p.out || p'.out == p.out + [TableLine(t, seed)]
    ensures PairHas(c', p', t, seed)
  {
  }

  /** The state after a ready line, as far as the table goes. */
  lemma ReadyShape(s: Sys, i: nat, now: real, n: int)
    requires Core(s) && Enabled(s, ServerReads(i, now, n))
    requires s.server.made[i].phase == Init && s.clients[i].out[0] == ReadyLine
    ensures SlotsExist(s.server) && Iota(s.server.ready) && |s.server.ready| == i && !Tabled(s.server)
    ensures var r, full := Apply(s, ServerReads(i, now, n)), i + 1 == s.server.expected;
            && (full ==> |s.server.made| == |s.server.ready| + 1)
            && (Tabled(r.server) <==> full)
            && |r.server.made| == |s.server.made| && |r.clients| == |s.clients|
            && forall j :: 0 <= j < |s.server.made| ==>
                 && SameTag(s.server.made[j], r.server.made[j]) && r.clients[j].phase == s.clients[j].phase
                 && r.server.made[j].out
                    == s.server.made[j].out + if full then [ReadyTable(s.server, n)] else []
  {
    ReadyComesInOrder(s, i);
    ReadyEffect(s.server, i, now, n);
    hide OnLine;
    hide PairOk;
    hide SlotOk;
    hide ReadyTable;
  }

  /** A ready line, with the table for everybody if it is the last one. */
  lemma ReadyTableStep(s: Sys, i: nat, now: real, n: int, t: Table, seed: int) returns (t': Table, seed': int)
    requires Core(s) && TableIs(s, t, seed) && Enabled(s, ServerReads(i, now, n))
    requires s.server.made[i].phase == Init && s.clients[i].out[0] == ReadyLine
    ensures TableIs(Apply(s, ServerReads(i, now, n)), t', seed')
  {
    hide Core;
    hide Apply;
    hide Tabled;
    hide PairHas;
    hide Fits;
    hide Informed;
    ReadyShape(s, i, now, n);
    var r := Apply(s, ServerReads(i, now, n));
    var full := i + 1 == s.server.expected;
    t', seed' := if full then ReadyTable(s.server, n).table else t, if full then n else seed;
    if full {
      ReadyTableFits(s.server, n);
      FitsSame(t', s.server.made, r.server.made);
    }
    forall j | 0 <= j < |r.server.made| ensures PairHas(r.clients[j], r.server.made[j], t', seed') {
      NoTableYet(s, j);
      assert s.server.made[j].out + [] == s.server.made[j].out;
      FirstTable(s.clients[j], s.server.made[j], r.clients[j], r.server.made[j], t', seed');
    }
  }

  lemma ClientReadsTable(s: Sys, i: nat, now: real, t: Table, seed: int)
    requires Core(s) && TableIs(s, t, seed) && Enabled(s, ClientReads(i, now))
    ensures TableIs(Apply(s, ClientReads(i, now)), t, seed)
  {
    hide Paired;
    hide PairHas;
    hide OnDownlink;
    hide Fits;
    hide ServerOk;
    var r := Apply(s, ClientReads(i, now));
    assert PairOk(s, i);
    ReadHas(s.clients[i], s.server.made[i], Pushed(s.server, i), Tabled(s.server), Ids(s.server.made), now, t, seed);
    hide PairOk;
    if Tabled(s.server) {
      FitsSame(t, s.server.made, r.server.made);
    }
  }

  lemma ReadHas(c: Client, p: Conn, pushed: bool, tabled: bool, ids: seq<int>, now: real, t: Table, seed: int)
    requires Paired(c, p, pushed, tabled, ids) && PairHas(c, p, t, seed) && p.out != [] && c.phase != Offline
    ensures PairHas(OnDownlink(c, p.out[0], now), p.(out := p.out[1..]), t, seed)
  {
    hide InScript;
  }

  lemma StepTable(s: Sys, step: Step, t: Table, seed: int) returns (t': Table, seed': int)
    requires Inv(s) && TableIs(s, t, seed) && Enabled(s, step)
    ensures TableIs(Apply(s, step), t', seed')
  {
    hide Apply;
    hide TableIs;
    t', seed' := t, seed;
    match step
    case Connect(i, now) => ClientStepTable(s, step, t, seed);
    case Accept => AcceptTable(s, t, seed);
    case PushIds => PushTable(s, t, seed);
    case ServerReads(i, now, n) =>
      ReadPhase(s, i);
      match s.server.made[i].phase {
        case Init =>
          if s.clients[i].out[0] == ReadyLine {
            t', seed' := ReadyTableStep(s, i, now, n, t, seed);
          } else {
            SetupTable(s, i, now, n, t, seed);
          }
        case VarsReceived => ReceivedTable(s, i, now, n, t, seed);
        case _ => MessageTable(s, i, now, n, t, seed);
      }
    case StartBody(now) => StartTable(s, now, t, seed);
    case ClientReads(i, now) => ClientReadsTable(s, i, now, t, seed);
    case WriteJob(i) => ClientStepTable(s, step, t, seed);
    case Send(i, message) => ClientStepTable(s, step, t, seed);
  }

  /** In every state of every run there is one table and one number that everybody has who has any. */
  lemma {:induction false} RunTable(run: seq<Sys>, steps: seq<Step>, k: nat) returns (t: Table, seed: int)
    requires IsRun(run, steps) && k < |run|
    ensures TableIs(run[k], t, seed)
  {
    hide Inv;
    hide Apply;
    if k == 0 {
      t, seed := map[], 0;
    } else {
      hide TableIs;
      t, seed := RunTable(run, steps, k - 1);
      RunKeeps(run, steps, k - 1);
      t, seed := StepTable(run[k - 1], steps[k - 1], t, seed);
    }
  }

  // ---------------------------------------------------------------------------------------------
  // What clients know of each other
  // ---------------------------------------------------------------------------------------------

  /** Once anybody has the table, all variables of all clients have been read. */
  lemma AllRead(s: Sys, i: nat, j: nat)
    requires Inv(s) && i < |s.clients| && j < |s.clients| && Informed(s.clients[i])
    ensures Tabled(s.server) && i < |s.server.made| == |s.clients|
    ensures VarsKnown(s.clients[j], s.server.made[j]) && HasOffset(s.server.made[j])
  {
    hide VarsRead;
    assert PairOk(s, i);
    assert i < |s.server.made| && Tabled(s.server);
    assert SlotOk(s.server, j) && PairOk(s, j);
    PairPhase(s.clients[j], s.server.made[j], Pushed(s.server, j), Tabled(s.server), Ids(s.server.made));
  }

  /** The last value of a name is that of the last variable with the name. */
  lemma {:induction false} LastValueIs(vars: seq<(string, string)>, name: string, value: string)
    ensures LastValue(vars, name) == Some(value)
       <==> exists k :: 0 <= k < |vars| && vars[k] == (name, value)
                        && forall l :: k < l < |vars| ==> vars[l].0 != name
  {
    if vars != [] {
      var n := |vars| - 1;
      LastValueIs(vars[..n], name, value);
      assert forall k :: 0 <= k < n ==> vars[..n][k] == vars[k];
      if vars[n].0 == name {
        assert vars[n] == (name, vars[n].1);
      } else if LastValue(vars, name) == Some(value) {
        var k :| 0 <= k < n && vars[..n][k] == (name, value) && forall l :: k < l < n ==> vars[..n][l].0 != name;
        assert vars[k] == (name, value);
        assert forall l :: k < l < n ==> vars[l].0 == vars[..n][l].0;
      }
    }
  }

  /** An entry with exactly the variables of a client and what the server adds to them. */
  ghost predicate EntryFor(entry: Vars, c: Client, id: int) {
    && (forall name :: name != TIME_OFFSET ==>
          match LastValue(c.vars, name)
          case Some(value) => name in entry && entry[name] == Text(value)
          case None => name in entry <==> name == PORT || name == HOST)
    && (LastValue(c.vars, PORT).None? ==> PORT in entry && entry[PORT] == Num((id + 12000) as real))
    && (LastValue(c.vars, HOST).None? ==> HOST in entry && entry[HOST] == HostOf(c.host))
    && TIME_OFFSET in entry && entry[TIME_OFFSET].Num?
  }

  lemma EntryIs(entry: Vars, c: Client, p: Conn)
    requires EntryOf(entry, p) && VarsKnown(c, p) && HasOffset(p) && p.host == c.host
    ensures EntryFor(entry, c, p.id)
  {
    assert PORT != TIME_OFFSET && HOST != TIME_OFFSET by {
      assert PORT[0] != TIME_OFFSET[0] && HOST[0] != TIME_OFFSET[0];
    }
    assert forall name :: name in entry <==> name in p.vars || name == PORT || name == HOST;
    hide LastValue;
  }

  /**
   In every state of every run, in the table of every client that was given one: for each client, under its id, exactly
   its variables, each with its last value, its clock difference, and the defaults for port and host it has not set.  Of
   clients with one id it is the last one.
   */
  lemma EveryoneKnows(run: seq<Sys>, steps: seq<Step>, k: nat, i: nat, j: nat)
    requires IsRun(run, steps) && k < |run|
    requires i < |run[k].clients| && j < |run[k].clients| && Informed(run[k].clients[i])
    ensures var s := run[k];
            && |s.server.made| == |s.clients|
            && (LastWithId(s.server.made, j) ==>
                  && s.server.made[j].id in s.clients[i].table
                  && EntryFor(s.clients[i].table[s.server.made[j].id], s.clients[j], s.server.made[j].id))
  {
    var s := run[k];
    RunKeeps(run, steps, k);
    AllRead(s, i, j);
    hide Inv;
    var t, seed := RunTable(run, steps, k);
    assert PairHas(s.clients[i], s.server.made[i], t, seed);
    SyncIds.RunKeepsIds(run, steps, k);
    assert SyncIds.ClientHosts(s)[j] == s.clients[j].host && Hosts(s.server.made)[j] == s.server.made[j].host;
    assert Hosts(s.server.made)[j] == s.server.made[j].host == s.clients[j].host;
    hide EntryOf;
    hide EntryFor;
    hide VarsKnown;
    if LastWithId(s.server.made, j) {
      EntryIs(t[s.server.made[j].id], s.clients[j], s.server.made[j]);
    }
  }

  /** All clients that were given a table have the same one, the same number, and as offset that of their own entry. */
  lemma OneTable(run: seq<Sys>, steps: seq<Step>, k: nat, i: nat, j: nat)
    requires IsRun(run, steps) && k < |run|
    requires i < |run[k].clients| && j < |run[k].clients|
    requires Informed(run[k].clients[i]) && Informed(run[k].clients[j])
    ensures var a, b := run[k].clients[i], run[k].clients[j];
            && a.table == b.table && a.random == b.random
            && a.myId in a.table && TIME_OFFSET in a.table[a.myId] && a.offset == a.table[a.myId][TIME_OFFSET]
  {
    var s := run[k];
    RunKeeps(run, steps, k);
    AllRead(s, i, j);
    hide Inv;
    var t, seed := RunTable(run, steps, k);
    assert PairHas(s.clients[i], s.server.made[i], t, seed) && PairHas(s.clients[j], s.server.made[j], t, seed);
  }
}
