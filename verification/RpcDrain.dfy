/** Every unfinished call whose reply was not lost can still be ended: the system never gets stuck on it. */
module RpcDrain {
  import opened ActionTypes
  import opened RpcSpec
  import opened RpcSystem

  // ----- runs as functions of their steps -----

  ghost predicate EnabledAll(s: System, steps: seq<Step>)
    decreases |steps|
  {
    steps == [] || (Enabled(s, steps[0]) && EnabledAll(Next(s, steps[0]), steps[1..]))
  }

  function After(s: System, steps: seq<Step>): System
    requires EnabledAll(s, steps)
    decreases |steps|
  {
    if steps == [] then s else After(Next(s, steps[0]), steps[1..])
  }

  lemma {:induction false} AfterBoth(s: System, a: seq<Step>, b: seq<Step>)
    requires EnabledAll(s, a) && EnabledAll(After(s, a), b)
    ensures EnabledAll(s, a + b) && After(s, a + b) == After(After(s, a), b)
    decreases |a|
  {
    if a == [] {
      assert a + b == b;
    } else {
      assert (a + b)[0] == a[0] && (a + b)[1..] == a[1..] + b;
      AfterBoth(Next(s, a[0]), a[1..], b);
    }
  }

  lemma AfterOne(s: System, step: Step)
    requires Enabled(s, step)
    ensures EnabledAll(s, [step]) && After(s, [step]) == Next(s, step)
  {
    assert [step][1..] == [];
  }

  // ----- an unfinished call -----

  /** The client is in the middle of a call, everything is in order, and no reply was lost. */
  ghost predicate Unfinished(s: System, name: Name, c: Client, ends: seq<ClientEvent>) {
    && Inv(s) && name in s.peers
    && s.peers[name].client.(pending := []) == c.(pending := []) && c.state != Idle
    && !s.peers[name].replyLost && s.peers[name].ends == ends
  }

  lemma UnfinishedLane(s: System, name: Name, c: Client, ends: seq<ClientEvent>)
    requires Unfinished(s, name, c, ends)
    ensures name in s.server.states && Good(LaneOf(s, name), name, s.server.service)
    ensures s.peers[name].client.state == c.state && s.peers[name].client.requestId == c.requestId
  {
    assert Known(s.server, name);
  }

  /** First everything the client has sent reaches the server's queue. */
  lemma {:induction false} DeliverAll(s: System, name: Name, c: Client, ends: seq<ClientEvent>)
    returns (steps: seq<Step>)
    requires Unfinished(s, name, c, ends)
    ensures EnabledAll(s, steps) && Unfinished(After(s, steps), name, c, ends) && After(s, steps).peers[name].wire == []
    decreases |s.peers[name].wire|
  {
    if s.peers[name].wire == [] {
      steps := [];
    } else {
      var step := DeliverRequest(name);
      NextKeeps(s, step);
      AfterOne(s, step);
      var more := DeliverAll(Next(s, step), name, c, ends);
      AfterBoth(s, [step], more);
      steps := [step] + more;
    }
  }

  /** What a read does to one client's side: at most the application learns something. */
  lemma ReadShortens(s: System, name: Name)
    requires name in s.peers && s.server.pending != [] && s.server.pending[0].client in s.server.states
    requires ServerPoll(s.server) == ReadOutcome(s.server)
    ensures var t := Next(s, PollServer);
            && name in t.peers && t.peers[name] == s.peers[name].(open := t.peers[name].open)
            && |t.server.pending| < |s.server.pending|
  {
    ReadPeer(s, name);
  }

  lemma ReadLeaves(s: System, name: Name)
    requires Inv(s) && name in s.peers && s.server.pending != []
    ensures var t := Next(s, PollServer);
            && name in t.peers && t.peers[name] == s.peers[name].(open := t.peers[name].open)
            && |t.server.pending| < |s.server.pending|
  {
    ServerPollIs(s);
    ReadShortens(s, name);
  }

  /** Then the server reads its whole queue, other clients' requests included. */
  lemma {:induction false} ReadAll(s: System, name: Name, c: Client, ends: seq<ClientEvent>) returns (steps: seq<Step>)
    requires Unfinished(s, name, c, ends) && s.peers[name].wire == []
    ensures EnabledAll(s, steps) && Unfinished(After(s, steps), name, c, ends)
    ensures After(s, steps).peers[name].wire == [] && After(s, steps).server.pending == []
    decreases |s.server.pending|
  {
    if s.server.pending == [] {
      steps := [];
    } else {
      ReadLeaves(s, name);
      NextKeeps(s, PollServer);
      AfterOne(s, PollServer);
      var more := ReadAll(Next(s, PollServer), name, c, ends);
      AfterBoth(s, [PollServer], more);
      steps := [PollServer] + more;
    }
  }

  /** With nothing left to read, the call is with the application or on its way back. */
  lemma NothingToRead(s: System, name: Name, c: Client, ends: seq<ClientEvent>)
    requires Unfinished(s, name, c, ends) && s.peers[name].wire == [] && s.server.pending == []
    ensures var l := LaneOf(s, name);
            name in s.server.states && (InWork(l.p, l.q, l.st) || OnWayBack(l.p, l.q, l.st))
  {
    UnfinishedLane(s, name, c, ends);
    assert LaneOf(s, name).q == [];
  }

  /** The application answers. */
  lemma AnswerIt(s: System, name: Name, c: Client, ends: seq<ClientEvent>) returns (steps: seq<Step>)
    requires Unfinished(s, name, c, ends) && s.peers[name].wire == [] && s.server.pending == []
    ensures EnabledAll(s, steps) && Unfinished(After(s, steps), name, c, ends)
            && Tokens(After(s, steps).peers[name]) != []
  {
    NothingToRead(s, name, c, ends);
    if Tokens(s.peers[name]) != [] {
      steps := [];
    } else {
      var step := Answer(name, false, 0, 0, true);
      AnswerIsSent(s, step);
      NextKeeps(s, step);
      AfterOne(s, step);
      steps := [step];
    }
  }

  /** The answer arrives. */
  lemma DeliverIt(s: System, name: Name, c: Client, ends: seq<ClientEvent>) returns (steps: seq<Step>)
    requires Unfinished(s, name, c, ends) && Tokens(s.peers[name]) != []
    ensures EnabledAll(s, steps) && Unfinished(After(s, steps), name, c, ends)
    ensures After(s, steps).peers[name].client.pending != []
  {
    if s.peers[name].client.pending != [] {
      steps := [];
    } else {
      var step := DeliverReply(name);
      assert s.peers[name].replies != [];
      NextKeeps(s, step);
      AfterOne(s, step);
      steps := [step];
    }
  }

  /** The client takes it; a poll at the time of the call cannot time out. */
  lemma TakeIt(s: System, name: Name, c: Client, ends: seq<ClientEvent>)
    requires Unfinished(s, name, c, ends) && s.peers[name].client.pending != []
    ensures var p := Next(s, PollClient(name, c.startedAt)).peers[name];
            && p.client.state == Idle && |p.ends| == |ends| + 1
            && (p.ends[|ends|].ResponseIn? || p.ends[|ends|].ResponseCancel?)
            && p.ends[|ends|].response.id == c.requestId
  {
    UnfinishedLane(s, name, c, ends);
    OnlyToken(LaneOf(s, name), name, s.server.service);
    assert !Expired(s.peers[name].client, c.startedAt);
  }

  /**
   * From every reachable state with an unfinished call and no lost reply, some continuation ends that
   * call with its own request ID.
   */
  lemma CallCanEnd(run: seq<System>, taken: seq<Step>, i: nat, name: Name) returns (steps: seq<Step>)
    requires IsRun(run, taken) && Start(run[0]) && i < |run| && name in run[i].peers
    requires run[i].peers[name].client.state != Idle && !run[i].peers[name].replyLost
    ensures EnabledAll(run[i], steps) && name in After(run[i], steps).peers
    ensures var (p, q) := (run[i].peers[name], After(run[i], steps).peers[name]);
            && q.client.state == Idle && |q.ends| == |p.ends| + 1
            && (q.ends[|p.ends|].ResponseIn? || q.ends[|p.ends|].ResponseCancel?)
            && q.ends[|p.ends|].response.id == p.client.requestId
  {
    RunGood(run, taken, i);
    var (s0, c, ends) := (run[i], run[i].peers[name].client, run[i].peers[name].ends);
    var delivers := DeliverAll(s0, name, c, ends);
    var s1 := After(s0, delivers);
    var polls := ReadAll(s1, name, c, ends);
    var s2 := After(s1, polls);
    var answers := AnswerIt(s2, name, c, ends);
    var s3 := After(s2, answers);
    var arrives := DeliverIt(s3, name, c, ends);
    var s4 := After(s3, arrives);
    TakeIt(s4, name, c, ends);
    AfterOne(s4, PollClient(name, c.startedAt));
    AfterBoth(s3, arrives, [PollClient(name, c.startedAt)]);
    AfterBoth(s2, answers, arrives + [PollClient(name, c.startedAt)]);
    AfterBoth(s1, polls, answers + (arrives + [PollClient(name, c.startedAt)]));
    AfterBoth(s0, delivers, polls + (answers + (arrives + [PollClient(name, c.startedAt)])));
    steps := delivers + (polls + (answers + (arrives + [PollClient(name, c.startedAt)])));
  }

  /** A client that is idle can always make another call, which goes out under the number of its own new buffer. */
  lemma CallCanBegin(s: System, name: Name, timeout: nat, now: nat)
    requires name in s.peers && s.peers[name].client.state == Idle
    ensures var steps := [CreateBuffer(name), StartCall(name, timeout, now, true)];
            && EnabledAll(s, steps) && name in After(s, steps).peers
            && var (p, q) := (s.peers[name], After(s, steps).peers[name]);
               var id := (p.client.currentId + 1) % U64 % U32;
               && q.client.state == Running && q.client.requestId == id && q.calls == p.calls + [id]
               && q.wire == p.wire + [Request(p.client.service, p.client.name, OP_REQUEST, id)]
  {
    var mid := Next(s, CreateBuffer(name));
    AfterOne(s, CreateBuffer(name));
    AfterOne(mid, StartCall(name, timeout, now, true));
    AfterBoth(s, [CreateBuffer(name)], [StartCall(name, timeout, now, true)]);
    assert [CreateBuffer(name)] + [StartCall(name, timeout, now, true)] ==
           [CreateBuffer(name), StartCall(name, timeout, now, true)];
  }
}
