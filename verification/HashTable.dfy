/**
  The distributed hash table of the router tutorial: a router forwards every request to the shard that its
  key hashes to, and each shard keeps a map of its own. Clients, router and shards are reactors that exchange
  events over FIFO channels, so any of them may move next. Whatever the order, the table answers like one
  map that serves the requests in the order in which they reached the router.
 */
module HashTable {
  import opened Wrappers

  type Key = nat
  type Value = nat

  datatype Op = Put(key: Key, value: Value) | Get(key: Key)

  /** A request with its reply channel; every `?` opens a new one. */
  datatype Request = Request(op: Op, client: nat, replyTo: nat)

  datatype Reply = Reply(replyTo: nat, previous: Option<Value>)

  type Table = map<Key, Value>

  function Lookup(data: Table, key: Key): Option<Value> {
    if key in data then Some(data[key]) else None
  }

  function Apply(data: Table, op: Op): Table {
    match op
    case Put(key, value) => data[key := value]
    case Get(_) => data
  }

  /** One shard reactor. */
  class Shard {
    var data: Table

    constructor ()
      ensures data == map[]
    {
      data := map[];
    }

    /** The handler of the shard's main channel: answer with the previous value, then store. */
    method OnEvent(op: Op) returns (reply: Option<Value>)
      modifies this
      ensures reply == Lookup(old(data), op.key) && data == Apply(old(data), op)
      ensures Lookup(data, op.key) == if op.Put? then Some(op.value) else reply
      ensures forall key | key != op.key :: Lookup(data, key) == Lookup(old(data), key)
    {
      match op
      case Put(key, value) =>
        reply := if key in data then Some(data[key]) else None;
        data := data[key := value];
      case Get(key) =>
        reply := if key in data then Some(data[key]) else None;
    }
  }

  // ---------------------------------------------------------------------------------------------
  // The system

  /** The number of shards, and the shard of every key. */
  datatype Config = Config(numShards: nat, shardOf: Key -> nat)

  ghost predicate Sharded(c: Config) {
    forall key :: c.shardOf(key) < c.numShards
  }

  /**
    The channels and the shards' maps, then the history: all requests sent, those that reached the router, those
    that the shards handled, and all replies, each in the order in which it happened.
   */
  datatype System = System(
    fromClient: map<nat, seq<Request>>, inbox: seq<Request>, toShard: seq<seq<Request>>, data: seq<Table>,
    sent: seq<Request>, arrived: seq<Request>, handled: seq<Request>, replies: seq<Reply>)

  datatype Move = Send(client: nat, op: Op) | Arrive(client: nat) | Forward | Process(shard: nat)

  function Start(c: Config): System {
    System(map[], [], seq(c.numShards, _ => []), seq(c.numShards, _ => map[]), [], [], [], [])
  }

  function Channel(s: System, client: nat): seq<Request> {
    if client in s.fromClient then s.fromClient[client] else []
  }

  ghost predicate Shaped(c: Config, s: System) {
    Sharded(c) && |s.toShard| == |s.data| == c.numShards
  }

  /** One move of the system; a move whose channel is empty does nothing. */
  function Next(c: Config, s: System, m: Move): System
    requires Shaped(c, s)
  {
    match m
    case Send(client, op) =>
      var r := Request(op, client, |s.sent|);
      s.(fromClient := s.fromClient[client := Channel(s, client) + [r]], sent := s.sent + [r])
    case Arrive(client) =>
      var channel := Channel(s, client);
      if channel == [] then s
      else
        s.(fromClient := s.fromClient[client := channel[1..]],
           inbox := s.inbox + [channel[0]], arrived := s.arrived + [channel[0]])
    case Forward =>
      if s.inbox == [] then s
      else
        var to := c.shardOf(s.inbox[0].op.key);
        s.(inbox := s.inbox[1..], toShard := s.toShard[to := s.toShard[to] + [s.inbox[0]]])
    case Process(i) =>
      if i >= c.numShards || s.toShard[i] == [] then s
      else
        var r := s.toShard[i][0];
        s.(toShard := s.toShard[i := s.toShard[i][1..]], handled := s.handled + [r],
           replies := s.replies + [Reply(r.replyTo, Lookup(s.data[i], r.op.key))],
           data := s.data[i := Apply(s.data[i], r.op)])
  }

  ghost function Run(c: Config, moves: seq<Move>): (s: System)
    requires Sharded(c)
    ensures Shaped(c, s)
  {
    if moves == [] then Start(c) else Next(c, Run(c, moves[..|moves| - 1]), moves[|moves| - 1])
  }

  // ---------------------------------------------------------------------------------------------
  // One map

  /** The single map after serving these requests in order. */
  function Serve(log: seq<Request>): Table {
    if log == [] then map[] else Apply(Serve(log[..|log| - 1]), log[|log| - 1].op)
  }

  /** What the single map answers to request `k` of the log. */
  function AnswerTo(log: seq<Request>, k: nat): Reply
    requires k < |log|
  {
    Reply(log[k].replyTo, Lookup(Serve(log[..k]), log[k].op.key))
  }

  // ---------------------------------------------------------------------------------------------
  // What one map answers, by the log alone

  predicate PutsTo(op: Op, key: Key) {
    op.Put? && op.key == key
  }

  /** Request `j` is the last one of the log that puts something to the key. */
  ghost predicate IsLastPut(log: seq<Request>, key: Key, j: nat) {
    j < |log| && PutsTo(log[j].op, key) && forall i | j < i < |log| :: !PutsTo(log[i].op, key)
  }

  /** The last value put to the key, if anything has been put to it. */
  ghost predicate IsLastValue(log: seq<Request>, key: Key, v: Option<Value>) {
    match v
    case None => forall j | 0 <= j < |log| :: !PutsTo(log[j].op, key)
    case Some(value) => exists j: nat :: IsLastPut(log, key, j) && log[j].op.value == value
  }

  /** The single map holds, for every key, the last value put to it. */
  lemma {:induction false} ServeHoldsLastValues(log: seq<Request>, key: Key)
    ensures IsLastValue(log, key, Lookup(Serve(log), key))
  {
    if log != [] {
      var before, last := log[..|log| - 1], |log| - 1;
      ServeHoldsLastValues(before, key);
      if PutsTo(log[last].op, key) {
        assert IsLastPut(log, key, last);
      } else if Lookup(Serve(before), key).Some? {
        var j: nat :| IsLastPut(before, key, j) && before[j].op.value == Lookup(Serve(before), key).value;
        assert IsLastPut(log, key, j);
      }
    }
  }

  /** There is only one such value. */
  lemma LastValueIsUnique(log: seq<Request>, key: Key, v: Option<Value>, u: Option<Value>)
    requires IsLastValue(log, key, v) && IsLastValue(log, key, u)
    ensures v == u
  {
  }

  // ---------------------------------------------------------------------------------------------
  // Parts of a log

  function Filter(log: seq<Request>, f: Request -> bool): seq<Request> {
    if log == [] then []
    else Filter(log[..|log| - 1], f) + if f(log[|log| - 1]) then [log[|log| - 1]] else []
  }

  function ToShard(c: Config, i: nat): Request -> bool {
    (r: Request) => c.shardOf(r.op.key) == i
  }

  function FromClient(client: nat): Request -> bool {
    (r: Request) => r.client == client
  }

  lemma FilterSnoc(log: seq<Request>, r: Request, f: Request -> bool)
    ensures Filter(log + [r], f) == Filter(log, f) + if f(r) then [r] else []
  {
    assert (log + [r])[..|log|] == log;
  }

  /** Where the `j`-th request of a part stands in the whole log. */
  lemma {:induction false} PlaceInLog(log: seq<Request>, f: Request -> bool, j: nat) returns (k: nat)
    requires j < |Filter(log, f)|
    ensures k < |log| && log[k] == Filter(log, f)[j] && f(log[k]) && Filter(log[..k], f) == Filter(log, f)[..j]
  {
    var last := |log| - 1;
    if j < |Filter(log[..last], f)| {
      k := PlaceInLog(log[..last], f, j);
      assert log[..last][..k] == log[..k];
    } else {
      k := last;
    }
  }

  /** Where a request of the log stands in its part. */
  lemma {:induction false} PlaceInPart(log: seq<Request>, f: Request -> bool, k: nat)
    requires k < |log| && f(log[k])
    ensures |Filter(log[..k], f)| < |Filter(log, f)| && Filter(log, f)[|Filter(log[..k], f)|] == log[k]
    ensures Filter(log[..k], f) == Filter(log, f)[..|Filter(log[..k], f)|]
    decreases |log|
  {
    var last := |log| - 1;
    if k < last {
      PlaceInPart(log[..last], f, k);
      assert log[..last][..k] == log[..k];
    }
  }

  /** A key's shard knows about the key everything that the single map knows. */
  lemma {:induction false} ShardKnowsItsKeys(c: Config, log: seq<Request>, key: Key)
    ensures Lookup(Serve(Filter(log, ToShard(c, c.shardOf(key)))), key) == Lookup(Serve(log), key)
  {
    if log != [] {
      var before, last := log[..|log| - 1], log[|log| - 1];
      ShardKnowsItsKeys(c, before, key);
      var part := Filter(before, ToShard(c, c.shardOf(key)));
      assert (part + [last])[..|part|] == part;
      assert Filter(log, ToShard(c, c.shardOf(key))) ==
        if c.shardOf(last.op.key) == c.shardOf(key) then part + [last] else part;
    }
  }

  // ---------------------------------------------------------------------------------------------
  // What every interleaving keeps

  ghost predicate RouterOk(s: System) {
    |s.inbox| <= |s.arrived| && s.inbox == s.arrived[|s.arrived| - |s.inbox|..]
  }

  /** What the router has forwarded. */
  function Forwarded(s: System): seq<Request>
    requires |s.inbox| <= |s.arrived|
  {
    s.arrived[..|s.arrived| - |s.inbox|]
  }

  /** What a shard has handled, followed by its channel, is its part of what the router forwarded. */
  ghost predicate ShardOk(c: Config, s: System, i: nat)
    requires Shaped(c, s) && i < c.numShards && |s.inbox| <= |s.arrived|
  {
    && Filter(s.handled, ToShard(c, i)) + s.toShard[i] == Filter(Forwarded(s), ToShard(c, i))
    && s.data[i] == Serve(Filter(s.handled, ToShard(c, i)))
  }

  ghost predicate ShardsOk(c: Config, s: System) {
    Shaped(c, s) && RouterOk(s) && forall i: nat | i < c.numShards :: ShardOk(c, s, i)
  }

  /** What reached the router from a client, followed by its channel, is what the client sent. */
  ghost predicate ClientOk(s: System, client: nat) {
    Filter(s.arrived, FromClient(client)) + Channel(s, client) == Filter(s.sent, FromClient(client))
  }

  ghost predicate ClientsOk(s: System) {
    && (forall k | 0 <= k < |s.sent| :: s.sent[k].replyTo == k)
    && forall client :: ClientOk(s, client)
  }

  /** Every reply was right for the shard's own map when it was given. */
  ghost predicate RepliesOk(c: Config, s: System) {
    && |s.replies| == |s.handled|
    && forall a | 0 <= a < |s.handled| ::
      s.replies[a] == Reply(s.handled[a].replyTo,
        Lookup(Serve(Filter(s.handled[..a], ToShard(c, c.shardOf(s.handled[a].op.key)))), s.handled[a].op.key))
  }

  ghost predicate AllOk(c: Config, s: System) {
    ShardsOk(c, s) && ClientsOk(s) && RepliesOk(c, s)
  }

  lemma {:induction false} EveryRunIsOk(c: Config, moves: seq<Move>)
    requires Sharded(c)
    ensures AllOk(c, Run(c, moves))
  {
    if moves != [] {
      var before := Run(c, moves[..|moves| - 1]);
      EveryRunIsOk(c, moves[..|moves| - 1]);
      match moves[|moves| - 1]
      case Send(client, op) => SendIsOk(c, before, client, op);
      case Arrive(client) => ArriveIsOk(c, before, client);
      case Forward => ForwardIsOk(c, before);
      case Process(i) => ProcessIsOk(c, before, i);
    }
  }

  lemma SendIsOk(c: Config, s: System, client: nat, op: Op)
    requires AllOk(c, s)
    ensures AllOk(c, Next(c, s, Send(client, op)))
  {
    var s' := Next(c, s, Send(client, op));
    forall i: nat | i < c.numShards ensures ShardOk(c, s', i) {
      assert ShardOk(c, s, i);
    }
    forall other ensures ClientOk(s', other) {
      assert ClientOk(s, other);
      FilterSnoc(s.sent, Request(op, client, |s.sent|), FromClient(other));
    }
  }

  lemma ArriveIsOk(c: Config, s: System, client: nat)
    requires AllOk(c, s)
    ensures AllOk(c, Next(c, s, Arrive(client)))
  {
    var s' := Next(c, s, Arrive(client));
    if Channel(s, client) != [] {
      assert Forwarded(s') == Forwarded(s);
      forall i: nat | i < c.numShards ensures ShardOk(c, s', i) {
        assert ShardOk(c, s, i);
      }
      ChannelsHoldOwnRequests(s, client, 0);
      forall other ensures ClientOk(s', other) {
        assert ClientOk(s, other);
        FilterSnoc(s.arrived, Channel(s, client)[0], FromClient(other));
      }
    }
  }

  lemma ChannelsHoldOwnRequests(s: System, client: nat, j: nat)
    requires ClientOk(s, client) && j < |Channel(s, client)|
    ensures Channel(s, client)[j].client == client
  {
    var part := Filter(s.arrived, FromClient(client));
    var k := PlaceInLog(s.sent, FromClient(client), |part| + j);
    assert (part + Channel(s, client))[|part| + j] == Channel(s, client)[j];
  }

  lemma ForwardIsOk(c: Config, s: System)
    requires AllOk(c, s)
    ensures AllOk(c, Next(c, s, Forward))
  {
    var s' := Next(c, s, Forward);
    forall client ensures ClientOk(s', client) {
      assert ClientOk(s, client);
    }
    if s.inbox != [] {
      assert Forwarded(s') == Forwarded(s) + [s.inbox[0]];
      forall i: nat | i < c.numShards ensures ShardOk(c, s', i) {
        assert ShardOk(c, s, i);
        FilterSnoc(Forwarded(s), s.inbox[0], ToShard(c, i));
      }
    }
  }

  lemma ProcessIsOk(c: Config, s: System, j: nat)
    requires AllOk(c, s)
    ensures AllOk(c, Next(c, s, Process(j)))
  {
    forall client ensures ClientOk(Next(c, s, Process(j)), client) {
      assert ClientOk(s, client);
    }
    if j < c.numShards && s.toShard[j] != [] {
      ProcessKeepsShards(c, s, j);
      ProcessKeepsReplies(c, s, j);
    }
  }

  lemma ProcessKeepsShards(c: Config, s: System, j: nat)
    requires ShardsOk(c, s) && j < c.numShards && s.toShard[j] != []
    ensures ShardsOk(c, Next(c, s, Process(j)))
  {
    forall i: nat | i < c.numShards ensures ShardOk(c, Next(c, s, Process(j)), i) {
      assert ShardOk(c, s, i);
      if i == j {
        OwnShardFollows(c, s, j);
      } else {
        OtherShardsStay(c, s, j, i);
      }
    }
  }

  lemma OwnShardFollows(c: Config, s: System, j: nat)
    requires ShardsOk(c, s) && j < c.numShards && s.toShard[j] != []
    ensures ShardOk(c, Next(c, s, Process(j)), j)
  {
    hide Filter, Serve;
    var r, f, queue := s.toShard[j][0], ToShard(c, j), s.toShard[j];
    var part := Filter(s.handled, f);
    var s' := Next(c, s, Process(j));
    assert part + queue == Filter(Forwarded(s), f) && s.data[j] == Serve(part) by {
      assert ShardOk(c, s, j);
    }
    assert Filter(s'.handled, f) == part + [r] by {
      ShardQueuesHoldOwnRequests(c, s, j);
      FilterSnoc(s.handled, r, f);
    }
    assert s'.data[j] == Serve(part + [r]) by {
      ServeSnoc(part, r);
    }
    HeadMoves(part, queue);
  }

  lemma ServeSnoc(log: seq<Request>, r: Request)
    ensures Serve(log + [r]) == Apply(Serve(log), r.op)
  {
    assert (log + [r])[..|log|] == log;
  }

  lemma HeadMoves(part: seq<Request>, queue: seq<Request>)
    requires queue != []
    ensures part + queue == (part + [queue[0]]) + queue[1..]
  {
  }

  lemma OtherShardsStay(c: Config, s: System, j: nat, i: nat)
    requires ShardsOk(c, s) && j < c.numShards && s.toShard[j] != [] && i < c.numShards && i != j
    ensures ShardOk(c, Next(c, s, Process(j)), i)
  {
    hide Filter, Serve;
    var part := Filter(s.handled, ToShard(c, i));
    assert ShardOk(c, s, i);
    ShardQueuesHoldOwnRequests(c, s, j);
    FilterSnoc(s.handled, s.toShard[j][0], ToShard(c, i));
    assert part + [] == part;
  }

  lemma ProcessKeepsReplies(c: Config, s: System, j: nat)
    requires ShardsOk(c, s) && RepliesOk(c, s) && j < c.numShards && s.toShard[j] != []
    ensures RepliesOk(c, Next(c, s, Process(j)))
  {
    var r := s.toShard[j][0];
    var handled := s.handled + [r];
    ShardQueuesHoldOwnRequests(c, s, j);
    assert ShardOk(c, s, j);
    forall a | 0 <= a <= |s.handled| ensures handled[..a] == s.handled[..a] {
    }
    assert s.handled[..|s.handled|] == s.handled;
  }

  lemma ShardQueuesHoldOwnRequests(c: Config, s: System, i: nat)
    requires ShardsOk(c, s) && i < c.numShards && s.toShard[i] != []
    ensures c.shardOf(s.toShard[i][0].op.key) == i
  {
    assert ShardOk(c, s, i);
    var part := Filter(s.handled, ToShard(c, i));
    var k := PlaceInLog(Forwarded(s), ToShard(c, i), |part|);
    assert (part + s.toShard[i])[|part|] == s.toShard[i][0];
  }

  // ---------------------------------------------------------------------------------------------
  // The table is one map

  /**
    In every run, every reply is what one map answers when it serves the requests in router order: the last value put
    to the key by a request before, or nothing.
   */
  lemma RepliesOfOneMap(c: Config, moves: seq<Move>, a: nat) returns (k: nat)
    requires Sharded(c) && a < |Run(c, moves).replies|
    ensures var s := Run(c, moves);
      && k < |s.arrived| && s.replies[a] == AnswerTo(s.arrived, k)
      && s.replies[a].replyTo == s.arrived[k].replyTo
      && IsLastValue(s.arrived[..k], s.arrived[k].op.key, s.replies[a].previous)
  {
    var s := Run(c, moves);
    EveryRunIsOk(c, moves);
    var r := s.handled[a];
    var i := c.shardOf(r.op.key);
    var mine := Filter(s.handled, ToShard(c, i));
    assert ShardOk(c, s, i);
    PlaceInPart(s.handled, ToShard(c, i), a);
    var j := |Filter(s.handled[..a], ToShard(c, i))|;
    var part := Filter(Forwarded(s), ToShard(c, i));
    assert part[j] == r && part[..j] == mine[..j];
    k := PlaceInLog(Forwarded(s), ToShard(c, i), j);
    assert Forwarded(s)[..k] == s.arrived[..k];
    ShardKnowsItsKeys(c, s.arrived[..k], r.op.key);
    ServeHoldsLastValues(s.arrived[..k], r.op.key);
  }

  /** Requests reach the router at most once, and those of one client in the order in which it sent them. */
  lemma ClientsAreServedInOrder(c: Config, moves: seq<Move>, k: nat, l: nat)
    requires Sharded(c) && k < l < |Run(c, moves).arrived|
    ensures var arrived := Run(c, moves).arrived;
      && arrived[k].replyTo != arrived[l].replyTo
      && (arrived[k].client == arrived[l].client ==> arrived[k].replyTo < arrived[l].replyTo)
  {
    var s := Run(c, moves);
    EveryRunIsOk(c, moves);
    var i := SentPlace(s, k);
    var j := SentPlace(s, l);
    if s.arrived[k].client == s.arrived[l].client {
      SentInOrder(s, k, l);
    }
  }

  /** A request that reached the router is the one sent with its reply channel. */
  lemma SentPlace(s: System, k: nat) returns (i: nat)
    requires ClientsOk(s) && k < |s.arrived|
    ensures i < |s.sent| && s.sent[i] == s.arrived[k] && s.arrived[k].replyTo == i
  {
    var f := FromClient(s.arrived[k].client);
    assert ClientOk(s, s.arrived[k].client);
    PlaceInPart(s.arrived, f, k);
    i := PlaceInLog(s.sent, f, |Filter(s.arrived[..k], f)|);
  }

  lemma SentInOrder(s: System, k: nat, l: nat)
    requires ClientsOk(s) && k < l < |s.arrived| && s.arrived[k].client == s.arrived[l].client
    ensures s.arrived[k].replyTo < s.arrived[l].replyTo
  {
    var client := s.arrived[k].client;
    var f := FromClient(client);
    assert ClientOk(s, client);
    PlaceInPart(s.arrived[..l], f, k);
    assert s.arrived[..l][..k] == s.arrived[..k];
    PlaceInPart(s.arrived, f, l);
    PlaceInPart(s.arrived, f, k);
    PartIsIncreasing(s.sent, f, |Filter(s.arrived[..k], f)|, |Filter(s.arrived[..l], f)|);
  }

  lemma {:induction false} PartIsIncreasing(log: seq<Request>, f: Request -> bool, i: nat, j: nat)
    requires forall k | 0 <= k < |log| :: log[k].replyTo == k
    requires i < j < |Filter(log, f)|
    ensures Filter(log, f)[i].replyTo < Filter(log, f)[j].replyTo
  {
    var k := PlaceInLog(log, f, j);
    var l := PlaceInLog(log[..k], f, i);
  }

  /** No request is answered twice. */
  lemma NoSecondReply(c: Config, moves: seq<Move>, a: nat, b: nat)
    requires Sharded(c) && a < b < |Run(c, moves).replies|
    ensures Run(c, moves).replies[a].replyTo != Run(c, moves).replies[b].replyTo
  {
    var s := Run(c, moves);
    EveryRunIsOk(c, moves);
    var k := HandledPlace(c, s, a);
    var l := HandledPlace(c, s, b);
    if s.replies[a].replyTo == s.replies[b].replyTo {
      if k < l {
        ClientsAreServedInOrder(c, moves, k, l);
      } else if l < k {
        ClientsAreServedInOrder(c, moves, l, k);
      } else {
        SamePlaceSameTurn(c, s, a, b);
      }
    }
  }

  /** Where a handled request stands in the router's order. */
  lemma HandledPlace(c: Config, s: System, a: nat) returns (k: nat)
    requires ShardsOk(c, s) && a < |s.handled|
    ensures k < |s.arrived| && s.arrived[k] == s.handled[a]
    ensures var f := ToShard(c, c.shardOf(s.handled[a].op.key));
      |Filter(s.arrived[..k], f)| == |Filter(s.handled[..a], f)|
  {
    var f := ToShard(c, c.shardOf(s.handled[a].op.key));
    assert ShardOk(c, s, c.shardOf(s.handled[a].op.key));
    PlaceInPart(s.handled, f, a);
    k := PlaceInLog(Forwarded(s), f, |Filter(s.handled[..a], f)|);
    assert Forwarded(s)[..k] == s.arrived[..k];
  }

  lemma SamePlaceSameTurn(c: Config, s: System, a: nat, b: nat)
    requires a < b < |s.handled| && s.handled[a] == s.handled[b]
    ensures var f := ToShard(c, c.shardOf(s.handled[a].op.key));
      |Filter(s.handled[..a], f)| != |Filter(s.handled[..b], f)|
  {
    var f := ToShard(c, c.shardOf(s.handled[a].op.key));
    PlaceInPart(s.handled[..b], f, a);
    assert s.handled[..b][..a] == s.handled[..a];
  }

  /** No channel holds anything. */
  ghost predicate Quiet(c: Config, s: System)
    requires Shaped(c, s)
  {
    && s.inbox == [] && (forall client :: Channel(s, client) == [])
    && forall i: nat | i < c.numShards :: s.toShard[i] == []
  }

  /** When no channel holds anything, every request sent has been answered. */
  lemma QuietMeansAnswered(c: Config, moves: seq<Move>, id: nat) returns (a: nat)
    requires Sharded(c) && id < |Run(c, moves).sent| && Quiet(c, Run(c, moves))
    ensures a < |Run(c, moves).replies| && Run(c, moves).replies[a].replyTo == id
  {
    var s := Run(c, moves);
    EveryRunIsOk(c, moves);
    var r := s.sent[id];
    var mine := FromClient(r.client);
    assert ClientOk(s, r.client);
    PlaceInPart(s.sent, mine, id);
    var k := PlaceInLog(s.arrived, mine, |Filter(s.sent[..id], mine)|);
    var i := c.shardOf(r.op.key);
    assert ShardOk(c, s, i) && Forwarded(s) == s.arrived;
    PlaceInPart(s.arrived, ToShard(c, i), k);
    a := PlaceInLog(s.handled, ToShard(c, i), |Filter(s.arrived[..k], ToShard(c, i))|);
  }

  /** How many moves the requests sent so far still need until they are answered. */
  function Outstanding(s: System): int {
    3 * |s.sent| - |s.arrived| - (|s.arrived| - |s.inbox|) - |s.replies|
  }

  lemma {:induction false} Pigeonhole(places: seq<nat>, n: nat)
    requires forall i, j | 0 <= i < j < |places| :: places[i] != places[j]
    requires forall i | 0 <= i < |places| :: places[i] < n
    ensures |places| <= n
  {
    if places != [] {
      assert places[0] < n;
      if i :| 0 <= i < |places| && places[i] == n - 1 {
        Pigeonhole(places[..i] + places[i + 1..], n - 1);
      } else {
        Pigeonhole(places, n - 1);
      }
    }
  }

  lemma OutstandingIsCount(c: Config, moves: seq<Move>)
    requires Sharded(c)
    ensures Outstanding(Run(c, moves)) >= 0
  {
    var s := Run(c, moves);
    EveryRunIsOk(c, moves);
    var arrivals := seq(|s.arrived|, k requires 0 <= k < |s.arrived| => s.arrived[k].replyTo);
    var answers := seq(|s.replies|, a requires 0 <= a < |s.replies| => s.replies[a].replyTo);
    forall k: nat | k < |s.arrived| ensures arrivals[k] < |s.sent| {
      var i := SentPlace(s, k);
    }
    forall k: nat, l: nat | k < l < |s.arrived| ensures arrivals[k] != arrivals[l] {
      ClientsAreServedInOrder(c, moves, k, l);
    }
    Pigeonhole(arrivals, |s.sent|);
    forall a: nat | a < |s.replies| ensures answers[a] < |s.sent| {
      var k := HandledPlace(c, s, a);
      var i := SentPlace(s, k);
    }
    forall a: nat, b: nat | a < b < |s.replies| ensures answers[a] != answers[b] {
      NoSecondReply(c, moves, a, b);
    }
    Pigeonhole(answers, |s.sent|);
  }

  /** Unless all channels are empty, some reactor can move, and its move is one of those needed. */
  lemma SomeoneCanMove(c: Config, s: System) returns (m: Move)
    requires AllOk(c, s) && !Quiet(c, s)
    ensures !m.Send? && Next(c, s, m).sent == s.sent && Outstanding(Next(c, s, m)) == Outstanding(s) - 1
  {
    if client :| Channel(s, client) != [] {
      m := Arrive(client);
    } else if s.inbox != [] {
      m := Forward;
    } else {
      var i: nat :| i < c.numShards && s.toShard[i] != [];
      m := Process(i);
    }
  }

  /** The request with this reply channel has been answered. */
  ghost predicate Answered(s: System, id: nat) {
    exists a: nat :: a < |s.replies| && s.replies[a].replyTo == id
  }

  /** From every state the system can reach one in which every request sent so far has been answered. */
  lemma {:induction false} EverythingCanBeAnswered(c: Config, moves: seq<Move>) returns (more: seq<Move>)
    requires Sharded(c)
    ensures (forall m | m in more :: !m.Send?) && Run(c, moves + more).sent == Run(c, moves).sent
    ensures forall id: nat | id < |Run(c, moves).sent| :: Answered(Run(c, moves + more), id)
    decreases Outstanding(Run(c, moves))
  {
    var s := Run(c, moves);
    EveryRunIsOk(c, moves);
    OutstandingIsCount(c, moves);
    if Quiet(c, s) {
      more := [];
      assert moves + more == moves;
      forall id: nat | id < |s.sent| ensures Answered(s, id) {
        var a := QuietMeansAnswered(c, moves, id);
      }
    } else {
      var m := SomeoneCanMove(c, s);
      assert (moves + [m])[..|moves|] == moves;
      OutstandingIsCount(c, moves + [m]);
      more := EverythingCanBeAnswered(c, moves + [m]);
      more := [m] + more;
      assert moves + [m] + more[1..] == moves + more;
    }
  }

  lemma {:induction false} ArrivalsOnlyGrow(c: Config, moves: seq<Move>, more: seq<Move>)
    requires Sharded(c)
    ensures Run(c, moves).arrived <= Run(c, moves + more).arrived
    decreases |more|
  {
    if more == [] {
      assert moves + more == moves;
    } else {
      assert (moves + more)[..|moves + more| - 1] == moves + more[..|more| - 1];
      ArrivalsOnlyGrow(c, moves, more[..|more| - 1]);
    }
  }

  /** A request that was answered before another was sent comes before it in the order of the one map. */
  lemma RealTimeOrder(c: Config, moves: seq<Move>, more: seq<Move>, a: nat, k: nat, l: nat)
    requires Sharded(c) && a < |Run(c, moves).replies|
    requires var s := Run(c, moves + more);
      && k < |s.arrived| && s.arrived[k].replyTo == Run(c, moves).replies[a].replyTo
      && l < |s.arrived| && s.arrived[l].replyTo >= |Run(c, moves).sent|
    ensures k < l
  {
    var early, late := Run(c, moves), Run(c, moves + more);
    EveryRunIsOk(c, moves);
    ArrivalsOnlyGrow(c, moves, more);
    var place := HandledPlace(c, early, a);
    assert late.arrived[place] == early.arrived[place];
    if place < k {
      ClientsAreServedInOrder(c, moves + more, place, k);
    } else if k < place {
      ClientsAreServedInOrder(c, moves + more, k, place);
    }
    if l < |early.arrived| {
      assert late.arrived[l] == early.arrived[l];
      var i := SentPlace(early, l);
    }
  }
}
