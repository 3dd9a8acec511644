/**
 * The reconciliation loop of `main` and the process-wide `STREAMER_LISTS`
 * state it updates: each cycle polls which configured streamers are live,
 * computes who went offline and who came online against the joined set,
 * replaces both stored sets, then leaves the offline channels and joins the new
 * ones. A failed poll raises out of `main`, so the loop ends there with the
 * stored sets as the last successful cycle left them.
 */
module Reconcile {
  import opened Wrappers
  import opened Python
  import opened Helix
  import opened Irc

  /** The value of `STREAMER_LISTS`: the joined set and the offline set. */
  datatype Membership = Membership(joined: set<string>, offline: set<string>)

  /** The two differences a cycle computes. */
  datatype Diff = Diff(nowOffline: set<string>, toJoin: set<string>)

  /** `joined.difference(live)` and `live.difference(joined)`. */
  function ComputeDiff(joined: set<string>, live: set<string>): (d: Diff)
    ensures joined - d.nowOffline + d.toJoin == live
    ensures d == Diff({}, {}) <==> joined == live
  {
    Diff(joined - live, live - joined)
  }

  /** The stored sets after a successful cycle: live becomes joined, the now-offline set becomes offline. */
  function Next(m: Membership, live: set<string>): (next: Membership)
    ensures next.joined !! next.offline
    ensures next.joined + next.offline == m.joined + live
  {
    Membership(live, ComputeDiff(m.joined, live).nowOffline)
  }

  /**
   * The two differences are disjoint, each lies on its own side, and together
   * with the names that stay joined they make up every name seen in either set.
   */
  lemma DiffPartitionsNames(joined: set<string>, live: set<string>)
    ensures var d := ComputeDiff(joined, live);
            && d.nowOffline !! d.toJoin
            && d.nowOffline <= joined && d.nowOffline !! live
            && d.toJoin <= live && d.toJoin !! joined
            && d.nowOffline + d.toJoin + (joined * live) == joined + live
  {
  }

  /** After a cycle the joined set is the live set and the two stored sets are disjoint. */
  lemma NextIsLive(m: Membership, live: set<string>)
    ensures Next(m, live).joined == live
    ensures Next(m, live).offline == m.joined - live
    ensures Next(m, live).joined !! Next(m, live).offline
  {
  }

  /** A second cycle with the same live set has nothing to leave and nothing to join. */
  lemma SecondCycleChangesNothing(m: Membership, live: set<string>)
    ensures ComputeDiff(Next(m, live).joined, live) == Diff({}, {})
    ensures Next(Next(m, live), live) == Membership(live, {})
  {
  }

  /** A streamer joined in one cycle and still live in the next is neither joined again nor left. */
  lemma StillLiveIsNotRejoined(m: Membership, live1: set<string>, live2: set<string>, name: string)
    requires name in ComputeDiff(m.joined, live1).toJoin && name in live2
    ensures name !in ComputeDiff(Next(m, live1).joined, live2).toJoin
    ensures name !in ComputeDiff(Next(m, live1).joined, live2).nowOffline
  {
  }

  /** Nobody joined and one streamer live: join that streamer, leave nobody. */
  lemma FirstStreamerGoesLive()
    ensures ComputeDiff({}, {"alice"}) == Diff({}, {"alice"})
  {
  }

  /** Two joined, one of them still live: leave the other, join nobody. */
  lemma OneOfTwoGoesOffline()
    ensures ComputeDiff({"alice", "bob"}, {"bob"}) == Diff({"alice"}, {})
  {
  }

  /**
   * The offline set only holds the names that went offline in the last
   * cycle: a configured streamer who is never live ends up in neither set.
   */
  lemma NeverLiveStreamerIsForgotten()
    ensures Next(Membership({}, {"alice"}), {}) == Membership({}, {})
  {
  }

  /** No name occurs twice. */
  predicate Distinct(order: seq<string>)
  {
    forall i, j | 0 <= i < j < |order| :: order[i] != order[j]
  }

  /** order lists every name of the set exactly once: what `list(s)` gives for a set s. */
  predicate Enumerates(order: seq<string>, names: set<string>)
  {
    && Distinct(order)
    && (forall n | n in order :: n in names)
    && (forall n | n in names :: n in order)
  }

  /** A list that enumerates a set is as long as the set is large. */
  lemma {:induction false} EnumerationLength(order: seq<string>, names: set<string>)
    requires Enumerates(order, names)
    ensures |order| == |names|
  {
    if order == [] {
      assert forall n :: n !in names;
      assert names == {};
    } else {
      var rest := order[1..];
      assert forall i | 0 <= i < |rest| :: rest[i] == order[i + 1];
      assert order[0] !in rest;
      assert forall n :: n in rest <==> n in names - {order[0]} by {
        assert forall n :: n in order <==> n == order[0] || n in rest by {
          assert order == [order[0]] + rest;
        }
      }
      EnumerationLength(rest, names - {order[0]});
    }
  }

  /**
   * `list(s)`: the names of a set, each once, in an order Python leaves
   * unspecified (the model picks each next name arbitrarily).
   */
  method ListOf(names: set<string>) returns (order: seq<string>)
    ensures Enumerates(order, names)
  {
    order := [];
    var rest := names;
    while rest != {}
      invariant rest <= names
      invariant Distinct(order)
      invariant forall n | n in order :: n in names - rest
      invariant forall n | n in names - rest :: n in order
      decreases rest
    {
      var name :| name in rest;
      assert name !in order;
      order := order + [name];
      rest := rest - {name};
    }
  }

  /** What a cycle sends for given orders of the two sets: all PARTs, then all JOINs. */
  function CycleCommands(leave: seq<string>, join: seq<string>): seq<Command>
  {
    PartAll(leave) + JoinAll(join)
  }

  /** sent is what a cycle with differences d sends, for some order of each set. */
  ghost predicate IsCycleOutput(sent: seq<Command>, d: Diff)
  {
    exists leave, join {:trigger CycleCommands(leave, join)} ::
      Enumerates(leave, d.nowOffline) && Enumerates(join, d.toJoin) && sent == CycleCommands(leave, join)
  }

  /** A PART goes to a channel exactly when its name is in the leave order, a JOIN when it is in the join order. */
  lemma CycleCommandsTargets(leave: seq<string>, join: seq<string>, n: string)
    ensures Part(Channel(n)) in CycleCommands(leave, join) <==> n in leave
    ensures Join(Channel(n)) in CycleCommands(leave, join) <==> n in join
  {
    PartTargets(leave, join, n);
    JoinTargets(leave, join, n);
  }

  /** The PART half of `CycleCommandsTargets`. */
  lemma PartTargets(leave: seq<string>, join: seq<string>, n: string)
    ensures Part(Channel(n)) in CycleCommands(leave, join) <==> n in leave
  {
    var parts, joins := PartAll(leave), JoinAll(join);
    assert Part(Channel(n)) !in joins by {
      assert forall i | 0 <= i < |joins| :: joins[i].Join?;
    }
    assert Part(Channel(n)) in CycleCommands(leave, join) <==> Part(Channel(n)) in parts;
    if Part(Channel(n)) in parts {
      var i :| 0 <= i < |parts| && parts[i] == Part(Channel(n));
      ChannelInjective(n, leave[i]);
    }
    if n in leave {
      var i :| 0 <= i < |leave| && leave[i] == n;
      assert parts[i] == Part(Channel(n));
    }
  }

  /** The JOIN half of `CycleCommandsTargets`. */
  lemma JoinTargets(leave: seq<string>, join: seq<string>, n: string)
    ensures Join(Channel(n)) in CycleCommands(leave, join) <==> n in join
  {
    var parts, joins := PartAll(leave), JoinAll(join);
    assert Join(Channel(n)) !in parts by {
      assert forall i | 0 <= i < |parts| :: parts[i].Part?;
    }
    assert Join(Channel(n)) in CycleCommands(leave, join) <==> Join(Channel(n)) in joins;
    if Join(Channel(n)) in joins {
      var i :| 0 <= i < |joins| && joins[i] == Join(Channel(n));
      ChannelInjective(n, join[i]);
    }
    if n in join {
      var i :| 0 <= i < |join| && join[i] == n;
      assert joins[i] == Join(Channel(n));
    }
  }

  /** Two lists without repeats give commands without repeats. */
  lemma CycleCommandsDistinct(leave: seq<string>, join: seq<string>)
    requires Distinct(leave) && Distinct(join)
    ensures var sent := CycleCommands(leave, join);
            forall i, j | 0 <= i < j < |sent| :: sent[i] != sent[j]
  {
    var sent := CycleCommands(leave, join);
    var k := |leave|;
    forall i, j | 0 <= i < j < |sent|
      ensures sent[i] != sent[j]
    {
      if j < k {
        ChannelInjective(leave[i], leave[j]);
      } else if k <= i {
        ChannelInjective(join[i - k], join[j - k]);
      }
    }
  }

  /**
   * What a cycle sends: one command per changed name, every PART before any
   * JOIN, a PART for exactly the now-offline names and a JOIN for exactly the
   * new ones, each to the channel "#" + name, and no command twice.
   */
  lemma CycleOutputShape(sent: seq<Command>, d: Diff)
    requires IsCycleOutput(sent, d)
    ensures |sent| == |d.nowOffline| + |d.toJoin|
    ensures forall i | 0 <= i < |sent| :: sent[i].Part? || sent[i].Join?
    ensures forall i, j | 0 <= i < j < |sent| :: sent[j].Part? ==> sent[i].Part?
    ensures forall n :: Part(Channel(n)) in sent <==> n in d.nowOffline
    ensures forall n :: Join(Channel(n)) in sent <==> n in d.toJoin
    ensures forall i, j | 0 <= i < j < |sent| :: sent[i] != sent[j]
  {
    var leave, join :| Enumerates(leave, d.nowOffline) && Enumerates(join, d.toJoin)
                       && sent == CycleCommands(leave, join);
    EnumerationLength(leave, d.nowOffline);
    EnumerationLength(join, d.toJoin);
    assert forall i | 0 <= i < |sent| :: sent[i].Part? <==> i < |leave|;
    forall n
      ensures Part(Channel(n)) in sent <==> n in d.nowOffline
      ensures Join(Channel(n)) in sent <==> n in d.toJoin
    {
      CycleCommandsTargets(leave, join, n);
    }
    CycleCommandsDistinct(leave, join);
  }

  /** A cycle with nothing to leave and nothing to join sends nothing. */
  lemma QuietCycle(sent: seq<Command>)
    requires IsCycleOutput(sent, Diff({}, {}))
    ensures sent == []
  {
    CycleOutputShape(sent, Diff({}, {}));
  }

  /** What one poll brings back: the token endpoint's answer and one streams answer per configured streamer. */
  datatype Poll = Poll(token: Response, statuses: seq<Value>)

  /** Every poll answers one status request per configured streamer. */
  predicate AnswersAll(channels: seq<string>, polls: seq<Poll>)
  {
    forall p | p in polls :: |p.statuses| == |channels|
  }

  /** `get_alive_streamers(config["channels"])` on one poll's answers. */
  function Fetch(channels: seq<string>, poll: Poll): (r: Result<set<string>, FetchError>)
    requires |poll.statuses| == |channels|
    ensures r.Success? ==> r.value <= set n | n in channels
  {
    if AliveStreamers(poll.token, channels, poll.statuses).Success? then
      AliveStreamersRequested(poll.token, channels, poll.statuses);
      AliveStreamers(poll.token, channels, poll.statuses)
    else
      AliveStreamers(poll.token, channels, poll.statuses)
  }

  /**
   * The stored sets after the loop has consumed the polls, and the error that
   * ended it, if any: cycles run until the first failed poll, which leaves the
   * sets as they were and ends the loop.
   */
  function Run(m: Membership, channels: seq<string>, polls: seq<Poll>): (r: (Membership, Option<FetchError>))
    requires AnswersAll(channels, polls)
    ensures r.1.None? <==> forall i | 0 <= i < |polls| :: Fetch(channels, polls[i]).Success?
    ensures r.1.None? && polls != [] ==> r.0.joined == Fetch(channels, polls[|polls| - 1]).value
    decreases |polls|
  {
    if polls == [] then (m, None)
    else
      match Fetch(channels, polls[0])
      case Failure(e) => (m, Some(e))
      case Success(live) =>
        var rest := polls[1..];
        assert AnswersAll(channels, rest) by {
          assert forall p | p in rest :: p in polls;
        }
        assert forall i | 1 <= i < |polls| :: polls[i] == rest[i - 1];
        Run(Next(m, live), channels, rest)
  }

  /** Once a poll fails, later polls change nothing: the loop is over. */
  lemma {:induction false} PollsAfterFailureIgnored(m: Membership, channels: seq<string>, polls: seq<Poll>, k: nat)
    requires AnswersAll(channels, polls)
    requires k < |polls| && Fetch(channels, polls[k]).Failure?
    ensures Run(m, channels, polls) == Run(m, channels, polls[..k + 1])
    ensures Run(m, channels, polls).1.Some?
    decreases k
  {
    var prefix := polls[..k + 1];
    assert prefix[0] == polls[0];
    if k > 0 && Fetch(channels, polls[0]).Success? {
      var live := Fetch(channels, polls[0]).value;
      assert polls[1..][k - 1] == polls[k];
      assert prefix[1..] == polls[1..][..k];
      PollsAfterFailureIgnored(Next(m, live), channels, polls[1..], k - 1);
    }
  }

  /** The process-wide `STREAMER_LISTS` together with the configured channels it is polled for. */
  class StreamerLists {
    const channels: seq<string>
    var joined: set<string>
    var offline: set<string>

    /** No name is both joined and offline, and every stored name is a configured one. */
    ghost predicate Valid()
      reads this
    {
      && joined !! offline
      && joined <= set n | n in channels
      && offline <= set n | n in channels
    }

    function Lists(): Membership
      reads this
    {
      Membership(joined, offline)
    }

    /** The initial value: nobody joined, every configured channel offline. */
    constructor (channels: seq<string>)
      ensures Valid() && this.channels == channels
      ensures joined == {} && offline == set n | n in channels
    {
      this.channels := channels;
      joined := {};
      offline := set n | n in channels;
    }

    /**
     * One cycle of `main`'s loop. A failed poll sends nothing and leaves both
     * sets as they were; a successful one replaces both sets and sends the
     * PARTs of the now-offline names, then the JOINs of the new ones.
     */
    method Step(poll: Poll) returns (sent: seq<Command>, failure: Option<FetchError>)
      requires Valid() && |poll.statuses| == |channels|
      modifies this
      ensures Valid()
      ensures Fetch(channels, poll).Failure? ==>
                && failure == Some(Fetch(channels, poll).error)
                && sent == []
                && Lists() == old(Lists())
      ensures Fetch(channels, poll).Success? ==>
                && failure == None
                && Lists() == Next(old(Lists()), Fetch(channels, poll).value)
                && IsCycleOutput(sent, ComputeDiff(old(joined), Fetch(channels, poll).value))
    {
      var fetched := Fetch(channels, poll);
      if fetched.Failure? {
        return [], Some(fetched.error);
      }
      var currentlyAlive := fetched.value;
      AliveStreamersRequested(poll.token, channels, poll.statuses);

      var previousAlive := joined;
      var nowOffline := previousAlive - currentlyAlive;
      var toJoin := currentlyAlive - joined;

      joined := currentlyAlive;
      offline := nowOffline;

      var leaving := ListOf(nowOffline);
      var joining := ListOf(toJoin);
      var parts := LeaveChannels(leaving);
      var joins := JoinChannels(joining);
      sent := parts + joins;
      assert sent == CycleCommands(leaving, joining);
      failure := None;
    }

    /**
     * `main`'s `while True` over a finite run of polls: cycles run in order
     * until a poll fails, which ends the loop.
     */
    method RunCycles(polls: seq<Poll>) returns (sent: seq<Command>, stoppedBy: Option<FetchError>)
      requires Valid() && AnswersAll(channels, polls)
      modifies this
      ensures Valid()
      ensures (Lists(), stoppedBy) == Run(old(Lists()), channels, polls)
    {
      sent := [];
      stoppedBy := None;
      var i := 0;
      while i < |polls|
        invariant 0 <= i <= |polls|
        invariant Valid()
        invariant Run(Lists(), channels, polls[i..]) == Run(old(Lists()), channels, polls)
      {
        assert polls[i..][0] == polls[i];
        var cmds, failure := Step(polls[i]);
        sent := sent + cmds;
        if failure.Some? {
          stoppedBy := failure;
          return;
        }
        assert polls[i..][1..] == polls[i + 1..];
        i := i + 1;
      }
    }
  }

  /**
   * Starting from the initial sets, a poll joins every live streamer and
   * leaves nobody; the same poll again sends nothing.
   */
  method RepeatedPollIsQuiet(channels: seq<string>, poll: Poll) returns (first: seq<Command>, second: seq<Command>)
    requires |poll.statuses| == |channels|
    requires Fetch(channels, poll).Success?
    ensures IsCycleOutput(first, Diff({}, Fetch(channels, poll).value))
    ensures second == []
  {
    var lists := new StreamerLists(channels);
    var failure;
    first, failure := lists.Step(poll);
    assert ComputeDiff({}, Fetch(channels, poll).value) == Diff({}, Fetch(channels, poll).value);
    second, failure := lists.Step(poll);
    SecondCycleChangesNothing(Membership({}, set n | n in channels), Fetch(channels, poll).value);
    QuietCycle(second);
  }
}
