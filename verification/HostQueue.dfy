/** The two request queues of a host. List order is arrival order: the oldest entry comes first. */
module HostQueue {
  import opened Common

  /** A request, known by its address. */
  type Net = nat

  /** Transport modes, from low to high. */
  datatype Mode = Single | Pipeline | Interleave

  datatype Status = Ok | Pending

  /** The list with every occurrence of net removed. */
  function Without(s: seq<Net>, net: Net): seq<Net> {
    if s == [] then [] else (if s[0] == net then [] else [s[0]]) + Without(s[1..], net)
  }

  lemma {:induction false} WithoutConcat(s: seq<Net>, t: seq<Net>, net: Net)
    ensures Without(s + t, net) == Without(s, net) + Without(t, net)
  {
    if s == [] {
      assert s + t == t && [] + Without(t, net) == Without(t, net);
    } else {
      WithoutConcat(s[1..], t, net);
      assert (s + t)[1..] == s[1..] + t;
      var head := if s[0] == net then [] else [s[0]];
      assert Without(s + t, net) == head + Without(s[1..] + t, net);
      Assoc(head, Without(s[1..], net), Without(t, net));
    }
  }

  lemma Assoc(a: seq<Net>, b: seq<Net>, c: seq<Net>)
    ensures (a + b) + c == a + (b + c)
  {}

  /** The places where net can enter the queues. */
  lemma Entered(active: seq<Net>, waiting: seq<Net>, net: Net)
    ensures active + (waiting + [net]) == active + waiting + [net]
    ensures waiting == [] ==> active + [net] + waiting == active + waiting + [net]
    ensures active + ([net] + waiting) == active + [net] + waiting
    ensures multiset(active + [net] + waiting) == multiset(active + waiting) + multiset{net}
    ensures multiset(active + waiting + [net]) == multiset(active + waiting) + multiset{net}
  {}

  /** Entering ahead of waiting entries is visible. */
  lemma Overtakes(active: seq<Net>, waiting: seq<Net>, net: Net)
    requires waiting != [] && net !in waiting
    ensures active + [net] + waiting != active + waiting + [net]
  {
    assert (active + [net] + waiting)[|active|] == net;
    assert (active + waiting + [net])[|active|] == waiting[0];
  }

  lemma {:induction false} WithoutAbsent(s: seq<Net>, net: Net)
    requires net !in s
    ensures Without(s, net) == s
  {
    if s != [] {
      WithoutAbsent(s[1..], net);
    }
  }

  predicate Distinct(s: seq<Net>) {
    forall i, j | 0 <= i < j < |s| :: s[i] != s[j]
  }

  /** Sending the oldest of the waiting entries to the end is visible unless it waits alone. */
  lemma ToTheEnd(active: seq<Net>, net: Net, rest: seq<Net>)
    ensures rest == [] ==> active + (rest + [net]) == active + ([net] + rest)
    ensures Distinct(active + ([net] + rest)) && rest != [] ==> active + (rest + [net]) != active + ([net] + rest)
  {
    if rest != [] {
      var s := active + ([net] + rest);
      assert s[|active|] == net && s[|active| + 1] == rest[0];
      assert (active + (rest + [net]))[|active|] == rest[0];
    }
  }

  /** A popped entry either joins the pipeline or goes back to the pending ones. */
  datatype Queues = Queues(active: seq<Net>, waiting: seq<Net>)

  function Relaunched(q: Queues, reachable: bool, lock: Option<Net>): Queues
    requires q.waiting != []
  {
    var net, rest := q.waiting[0], q.waiting[1..];
    if reachable then Queues(q.active + [net], rest)
    else if lock == Some(net) then q
    else Queues(q.active, rest + [net])
  }

  /** Relaunching loses nothing, and keeps the order exactly if there is a connection to be had,
      or the entry waits alone, or it holds the lock. */
  lemma RelaunchOrder(q: Queues, reachable: bool, lock: Option<Net>)
    requires q.waiting != []
    ensures var before, r := q.active + q.waiting, Relaunched(q, reachable, lock);
            var after := r.active + r.waiting;
            && multiset(after) == multiset(before)
            && (reachable || |q.waiting| == 1 || lock == Some(q.waiting[0]) ==> after == before)
            && (Distinct(before) && after == before ==> reachable || |q.waiting| == 1 || lock == Some(q.waiting[0]))
  {
    hide Distinct;
    var net, rest := q.waiting[0], q.waiting[1..];
    assert q.waiting == [net] + rest;
    Entered(q.active, rest, net);
    ToTheEnd(q.active, net, rest);
  }

  /** How many requests may be active: one in single mode, the maximum in pipeline mode, any number
      in interleaved mode; no more than the server takes on one connection, and none when it has
      announced the end of the connection or the pipe is broken. */
  function Limit(mode: Mode, maxPipelined: nat, closing: bool, perConnection: int): (limit: Option<nat>) {
    if closing || perConnection < 0 then Some(0)
    else
      var n := if mode.Single? then 1 else if mode.Pipeline? then maxPipelined else perConnection;
      if mode.Interleave? && perConnection == 0 then None
      else Some(if perConnection == 0 || n < perConnection then n else perConnection)
  }

  /** What is known of a connection before the first request. */
  datatype Setting = Setting(open: bool, mode: Mode, closing: bool, perConnection: int)

  class Host {
    const maxPipelined: nat
    const maxRecover: nat
    var pipeline: seq<Net>
    var pending: seq<Net>
    var doit: Option<Net>         // popped from the pending queue, on its way to the pipeline
    var lock: Option<Net>
    var mode: Mode
    var reqsMade: int
    var reqsPerConnection: int
    var closeNotification: bool
    var brokenPipe: bool
    var recovered: nat
    var doRecover: bool
    var channel: bool             // there is one
    var persistent: bool

    constructor (maxPipelined: nat, maxRecover: nat)
      ensures this.maxPipelined == maxPipelined && this.maxRecover == maxRecover && Order() == [] && doit.None?
      ensures IsSet(Setting(false, Single, false, 0))
    {
      this.maxPipelined, this.maxRecover := maxPipelined, maxRecover;
      pipeline, pending, doit, lock := [], [], None, None;
      mode, reqsMade, reqsPerConnection, closeNotification, brokenPipe := Single, 0, 0, false, false;
      recovered, doRecover, channel, persistent := 0, false, false, false;
    }

    /** All requests of the host. */
    ghost function Order(): seq<Net>
      reads this`pipeline, this`pending
    {
      pipeline + pending
    }

    predicate RoomInPipe()
      reads this`pipeline, this`mode, this`reqsMade, this`reqsPerConnection, this`closeNotification,
            this`brokenPipe, this`recovered
    {
      if (reqsPerConnection != 0 && reqsMade >= reqsPerConnection) || closeNotification || brokenPipe then false
      else match mode
        case Single => |pipeline| <= 0
        case Pipeline =>
          if recovered < maxRecover || maxRecover == 0 then |pipeline| < maxPipelined else |pipeline| <= 0
        case Interleave => true
    }

    /** There is, or could be, a connection. */
    predicate Reachable(sockets: int)
      reads this`channel
    {
      channel || sockets > 0
    }

    /** A request that turns up goes behind all others: not if it is just being launched, and
        without a connection not if it holds the lock. */
    predicate InTurn(net: Net, sockets: int)
      reads this
    {
      pending == [] || if Reachable(sockets) then !RoomInPipe() || doit != Some(net) else lock != Some(net)
    }

    /** Put a request into one of the queues. */
    method Enqueue(net: Net, sockets: int) returns (status: Status)
      modifies this`pipeline, this`pending, this`doit, this`reqsMade
      ensures status.Ok? <==> Reachable(sockets) && old(RoomInPipe()) && (old(pending) == [] || old(doit) == Some(net))
      ensures closeNotification || brokenPipe || (reqsPerConnection != 0 && old(reqsMade) >= reqsPerConnection) ==>
                status.Pending?
      ensures Reachable(sockets) && old(pending) == [] && !closeNotification && !brokenPipe
              && (reqsPerConnection == 0 || old(reqsMade) < reqsPerConnection) ==>
                && (mode.Single? ==> (status.Ok? <==> old(pipeline) == []))
                && (mode.Pipeline? && (maxRecover == 0 || recovered < maxRecover) ==>
                      (status.Ok? <==> |old(pipeline)| < maxPipelined))
                && (mode.Pipeline? && recovered >= maxRecover > 0 ==> (status.Ok? <==> old(pipeline) == []))
                && (mode.Interleave? ==> status.Ok?)
      ensures reqsMade == old(reqsMade) + if status.Ok? then 1 else 0
      ensures if status.Ok? then pipeline == old(pipeline) + [net] && pending == old(pending)
              else pipeline == old(pipeline)
                   && pending == if !Reachable(sockets) && lock == Some(net) then [net] + old(pending)
                                 else old(pending) + [net]
      ensures doit == if status.Ok? && old(doit) == Some(net) then None else old(doit)
    {
      var isDoit := doit == Some(net);
      if !channel && sockets <= 0 {
        if lock == Some(net) {
          pending := [net] + pending;
        } else {
          pending := pending + [net];
        }
        return Pending;
      }
      if RoomInPipe() && (pending == [] || isDoit) {
        if isDoit {
          doit := None;
        }
        pipeline := pipeline + [net];
        reqsMade := reqsMade + 1;
        status := Ok;
      } else {
        pending := pending + [net];
        status := Pending;
      }
    }

    /** A request turns up, or comes back after it was popped. */
    method AddNet(net: Net, sockets: int) returns (status: Status)
      modifies this`pipeline, this`pending, this`doit, this`reqsMade
      ensures status.Ok? <==> Reachable(sockets) && old(RoomInPipe()) && (old(pending) == [] || old(doit) == Some(net))
      ensures closeNotification || brokenPipe || (reqsPerConnection != 0 && old(reqsMade) >= reqsPerConnection) ==>
                status.Pending?
      ensures Reachable(sockets) && old(pending) == [] && !closeNotification && !brokenPipe
              && (reqsPerConnection == 0 || old(reqsMade) < reqsPerConnection) ==>
                && (mode.Single? ==> (status.Ok? <==> old(pipeline) == []))
                && (mode.Pipeline? && (maxRecover == 0 || recovered < maxRecover) ==>
                      (status.Ok? <==> |old(pipeline)| < maxPipelined))
                && (mode.Pipeline? && recovered >= maxRecover > 0 ==> (status.Ok? <==> old(pipeline) == []))
                && (mode.Interleave? ==> status.Ok?)
      ensures reqsMade == old(reqsMade) + if status.Ok? then 1 else 0
      ensures if status.Ok? then pipeline == old(pipeline) + [net] && pending == old(pending)
              else pipeline == old(pipeline)
                   && pending == if !Reachable(sockets) && lock == Some(net) then [net] + old(pending)
                                 else old(pending) + [net]
      ensures doit == if status.Ok? && old(doit) == Some(net) then None else old(doit)
      ensures multiset(Order()) == old(multiset(Order())) + multiset{net}
      ensures old(InTurn(net, sockets)) ==> Order() == old(Order()) + [net]
      ensures net !in old(pending) && !old(InTurn(net, sockets)) ==> Order() != old(Order()) + [net]
    {
      hide RoomInPipe;
      if pending != [] && net !in pending {
        Overtakes(pipeline, pending, net);
      }
      Entered(pipeline, pending, net);
      status := Enqueue(net, sockets);
    }

    /** Nothing has been asked for yet; what is known of the connection is this. */
    ghost predicate IsSet(setting: Setting)
      reads this
    {
      && Order() == [] && doit.None? && recovered == 0 && reqsMade == 0
      && setting == Setting(channel, mode, closeNotification || brokenPipe, reqsPerConnection)
    }

    /** With a channel open and nothing deleted since, the oldest requests are active, as many as
        there may be; None is no limit. */
    ghost predicate Admits(limit: Option<nat>)
      reads this
    {
      && channel && doit.None? && recovered == 0 && reqsMade == |pipeline|
      && limit == Limit(mode, maxPipelined, closeNotification || brokenPipe, reqsPerConnection)
      && match limit
         case None => pending == []
         case Some(n) => |pipeline| <= n && (pending == [] || |pipeline| == n)
    }

    method NextPendingNet() returns (net: Option<Net>)
      modifies this`pending, this`doit
      ensures old(pending) == [] ==> net == None && pending == [] && doit == old(doit)
      ensures old(pending) != [] ==> doit == net == Some(old(pending)[0]) && pending == old(pending)[1..]
    {
      net := None;
      if pending != [] {
        net := Some(pending[0]);
        pending := pending[1..];
        doit := net;
      }
    }

    ghost function Lists(): Queues
      reads this`pipeline, this`pending
    {
      Queues(pipeline, pending)
    }

    predicate MayLaunch(writing: bool)
      reads this`pipeline, this`pending, this`mode, this`reqsMade, this`reqsPerConnection, this`closeNotification,
            this`brokenPipe, this`recovered
    {
      !(mode.Pipeline? && pipeline != [] && writing) && RoomInPipe() && pending != []
    }

    /** Start the next pending request of this host; executing a request adds it again. writing
        tells whether the youngest request in the pipeline is still being written. */
    method LaunchPending(sockets: int, writing: bool)
      modifies this`pipeline, this`pending, this`doit, this`reqsMade
      ensures old(MayLaunch(writing)) ==>
                if Reachable(sockets) then pipeline == old(pipeline) + [old(pending)[0]] && pending == old(pending)[1..]
                else pipeline == old(pipeline)
                     && pending == if lock == Some(old(pending)[0]) then old(pending)
                                   else old(pending)[1..] + [old(pending)[0]]
      ensures (old(pipeline != [] && mode.Pipeline? && writing) || closeNotification || brokenPipe
               || (reqsPerConnection != 0 && old(reqsMade) >= reqsPerConnection)) ==> Lists() == old(Lists())
      ensures !old(MayLaunch(writing)) ==> reqsMade == old(reqsMade)
      ensures if old(MayLaunch(writing)) then
                && Lists() == Relaunched(old(Lists()), Reachable(sockets), lock)
                && doit == if Reachable(sockets) then None else Some(old(pending)[0])
              else Lists() == old(Lists()) && doit == old(doit)
    {
      if mode.Pipeline? && pipeline != [] && writing {
        return;
      }
      if RoomInPipe() {
        var net := NextPendingNet();
        if net.Some? {
          var _ := AddNet(net.value, sockets);
        }
      }
    }

    /** Drop the channel; what is pending may be launched. */
    method ClearChannel(sockets: int)
      modifies this
      ensures !channel && lock == old(lock)
      ensures if old(channel && pending != [] && pipeline == [] && reqsPerConnection >= 0) then
                && Lists() == Relaunched(old(Lists()), sockets > 0, old(lock))
                && doit == if sockets > 0 then None else Some(old(pending)[0])
              else Lists() == old(Lists()) && doit == old(doit)
      ensures recovered == if old(channel) then 0 else old(recovered)
      ensures mode.Single? || mode == old(mode)
    {
      if channel {
        channel, reqsMade, persistent := false, 0, false;
        closeNotification, brokenPipe, mode, recovered := false, false, Single, 0;
        if pending != [] {
          LaunchPending(sockets, false);
        }
      }
    }

    /** A request in the pipeline is over; deleted tells whether its channel went away with it. */
    method Free(sockets: int, deleted: bool)
      requires pipeline != []
      modifies this
      ensures Lists() == old(Lists()) && doit == old(doit) && lock == old(lock)
      ensures mode.Single? || mode == old(mode)
    {
      if channel {
        if persistent {
          var piped := |pipeline|;
          if closeNotification {
            if piped > 1 {
              reqsPerConnection := reqsMade - piped;
              doRecover := true;
              if deleted {
                channel := false;
              }
            } else {
              ClearChannel(sockets);
            }
          } else if piped <= 1 && reqsMade == reqsPerConnection {
            ClearChannel(sockets);
          } else if deleted {
            channel := false;
          }
        } else {
          ClearChannel(sockets);
        }
      }
    }

    method DeleteNet(net: Net, sockets: int, deleted: bool)
      modifies this
      ensures Order() == Without(old(Order()), net) && doit == old(doit)
      ensures pipeline == Without(old(pipeline), net) && pending == Without(old(pending), net)
      ensures mode.Single? || mode == old(mode)
      ensures lock == if pending == [] then None else Some(pending[0])
    {
      WithoutConcat(pipeline, pending, net);
      if net in pipeline {
        Free(sockets, deleted);
        pipeline := Without(pipeline, net);
      } else {
        WithoutAbsent(pipeline, net);
      }
      pending := Without(pending, net);
      lock := if pending == [] then None else Some(pending[0]);
    }

    /** Going back to single mode with requests in the pipeline. */
    predicate Downgrade(newMode: Mode)
      reads this`mode, this`pipeline
    {
      newMode.Single? && !mode.Single? && pipeline != []
    }

    /** All requests wait, none is active. */
    ghost function AllWaiting(): Queues
      reads this`pipeline, this`pending
    {
      Queues([], Order())
    }

    /** Change the mode; going back to single mode empties the pipeline into the pending queue. */
    method SetMode(newMode: Mode, sockets: int)
      modifies this
      ensures if !old(Downgrade(newMode)) then Lists() == old(Lists()) && doit == old(doit)
              else if old(channel && reqsPerConnection >= 0) then
                && Lists() == Relaunched(old(AllWaiting()), sockets > 0, old(lock))
                && doit == if sockets > 0 then None else Some(old(Order())[0])
              else Lists() == old(AllWaiting()) && doit == old(doit)
      ensures mode == if newMode.Pipeline? && recovered > maxRecover then old(mode) else newMode
      ensures !old(Downgrade(newMode)) ==>
                unchanged(this`channel, this`lock, this`reqsMade, this`reqsPerConnection, this`closeNotification,
                          this`brokenPipe, this`recovered)
    {
      if newMode.Single? && !mode.Single? {
        var piped := |pipeline|;
        if piped > 0 {
          MoveToPending(piped);
          ClearChannel(sockets);
        }
      }
      if !(newMode.Pipeline? && recovered > maxRecover) {
        mode := newMode;
      }
    }

    /** Take the youngest request from the pipeline and put it before the oldest pending one, again and again. */
    method MoveToPending(piped: nat)
      requires piped == |pipeline|
      modifies this`pipeline, this`pending
      ensures Lists() == old(AllWaiting())
    {
      for cnt := 0 to piped
        invariant |pipeline| == piped - cnt && Order() == old(Order())
      {
        var net := pipeline[|pipeline| - 1];
        Entered(pipeline[..|pipeline| - 1], pending, net);
        pipeline := pipeline[..|pipeline| - 1];
        pending := [net] + pending;
      }
    }
  }

  // ----- whole runs

  /** What can happen to a host: its own operations, a connection being made, and what is learnt
      from the other side. */
  datatype Op = Add(net: Net) | Launch(writing: bool) | Delete(net: Net, deleted: bool) | Switch(mode: Mode)
              | Open(persistent: bool) | Learn(close: bool, broken: bool, perConnection: int)

  /** A plain queue: requests join at the end and leave when they are deleted. */
  function Step(queue: seq<Net>, op: Op): seq<Net> {
    match op
    case Add(net) => queue + [net]
    case Delete(net, _) => Without(queue, net)
    case _ => queue
  }

  function Fifo(ops: seq<Op>): seq<Net> {
    if ops == [] then [] else Step(Fifo(ops[..|ops| - 1]), ops[|ops| - 1])
  }

  lemma {:induction false} WithoutMultiset(s: seq<Net>, net: Net)
    ensures multiset(Without(s, net)) == multiset(s)[net := 0]
  {
    if s != [] {
      WithoutMultiset(s[1..], net);
      assert s == [s[0]] + s[1..];
    }
  }

  lemma SameMultiset(s: seq<Net>, t: seq<Net>, op: Op)
    requires multiset(s) == multiset(t)
    ensures multiset(Step(s, op)) == multiset(Step(t, op))
  {
    if op.Delete? {
      WithoutMultiset(s, op.net);
      WithoutMultiset(t, op.net);
    }
  }

  /** Deleting makes no list longer. */
  lemma {:induction false} WithoutLength(s: seq<Net>, net: Net)
    ensures |Without(s, net)| <= |s|
  {
    if s != [] {
      WithoutLength(s[1..], net);
    }
  }

  function Most(a: nat, b: nat): nat { if a < b then b else a }

  /** What the mode alone allows. */
  predicate AtMost(host: Host, single: bool)
    reads host`mode, host`pipeline
  {
    if single then host.mode.Single? && |host.pipeline| <= 1
    else !host.mode.Interleave? && |host.pipeline| <= Most(1, host.maxPipelined)
  }

  /** Where requests are admitted up to a limit none is left to be launched. */
  lemma NoneToLaunch(host: Host, limit: Option<nat>, writing: bool)
    requires host.Admits(limit)
    ensures host.pending == [] || !host.RoomInPipe()
    ensures !host.MayLaunch(writing)
  {}

  lemma RoomUnderLimit(host: Host, limit: Option<nat>)
    requires host.Admits(limit)
    ensures host.RoomInPipe() <==> limit.None? || |host.pipeline| < limit.value
  {}

  lemma RoomLeft(host: Host, single: bool, writing: bool)
    requires AtMost(host, single) && (host.RoomInPipe() || host.MayLaunch(writing))
    ensures single ==> host.pipeline == []
    ensures |host.pipeline| < Most(1, host.maxPipelined)
  {}

  method PerformAdd(host: Host, net: Net, sockets: int, ghost limit: Option<nat>, ghost single: bool)
    modifies host`pipeline, host`pending, host`doit, host`reqsMade
    ensures old(host.Admits(limit)) ==> host.Admits(limit)
    ensures old(AtMost(host, single)) ==> AtMost(host, single)
    ensures multiset(host.Order()) == multiset(Step(old(host.Order()), Add(net)))
    ensures old(host.Reachable(sockets)) && old(host.doit).None? ==>
              host.Order() == Step(old(host.Order()), Add(net)) && host.doit.None?
  {
    hide Host.RoomInPipe, Host.Order, Limit, Most;
    if host.Admits(limit) {
      RoomUnderLimit(host, limit);
    }
    if AtMost(host, single) && host.RoomInPipe() {
      RoomLeft(host, single, false);
    }
    var _ := host.AddNet(net, sockets);
  }

  method PerformLaunch(host: Host, writing: bool, sockets: int, ghost limit: Option<nat>, ghost single: bool)
    modifies host`pipeline, host`pending, host`doit, host`reqsMade
    ensures old(host.Admits(limit)) ==> host.Admits(limit)
    ensures old(AtMost(host, single)) ==> AtMost(host, single)
    ensures multiset(host.Order()) == old(multiset(host.Order()))
    ensures old(host.Reachable(sockets)) ==>
              host.Order() == old(host.Order()) && (old(host.doit).None? ==> host.doit.None?)
  {
    hide Distinct, Relaunched, Host.RoomInPipe, Limit;
    if host.Admits(limit) {
      NoneToLaunch(host, limit, writing);
    }
    if AtMost(host, single) && host.MayLaunch(writing) {
      RoomLeft(host, single, writing);
    }
    ghost var before, launches := host.Lists(), host.MayLaunch(writing);
    host.LaunchPending(sockets, writing);
    assert multiset(host.Order()) == multiset(before.active + before.waiting) by {
      if launches {
        RelaunchOrder(before, host.Reachable(sockets), host.lock);
      }
    }
    assert host.Reachable(sockets) ==> host.Order() == before.active + before.waiting by {
      if launches {
        RelaunchOrder(before, host.Reachable(sockets), host.lock);
      }
    }
  }

  method PerformDelete(host: Host, net: Net, sockets: int, deleted: bool, ghost single: bool)
    modifies host
    ensures host.Order() == Step(old(host.Order()), Delete(net, deleted)) && host.doit == old(host.doit)
    ensures old(AtMost(host, single)) ==> AtMost(host, single)
  {
    WithoutLength(host.pipeline, net);
    host.DeleteNet(net, sockets, deleted);
  }

  lemma OneLaunched(q: Queues, reachable: bool, lock: Option<Net>)
    requires q.waiting != [] && q.active == []
    ensures |Relaunched(q, reachable, lock).active| <= 1
  {}

  method PerformSwitch(host: Host, mode: Mode, sockets: int, ghost setting: Setting, ghost single: bool)
    modifies host
    ensures !old(host.Downgrade(mode)) ==> host.channel == old(host.channel)
    ensures old(host.IsSet(setting)) ==> host.IsSet(setting.(mode := mode))
    ensures !single && !mode.Interleave? && old(AtMost(host, single)) ==> AtMost(host, single)
    ensures multiset(host.Order()) == old(multiset(host.Order()))
    ensures sockets > 0 || !old(host.Downgrade(mode)) ==>
              host.Order() == old(host.Order()) && (old(host.doit).None? ==> host.doit.None?)
  {
    hide Distinct, Relaunched;
    ghost var all, lock, downgrade := host.AllWaiting(), host.lock, host.Downgrade(mode);
    host.SetMode(mode, sockets);
    assert multiset(host.Order()) == multiset(all.waiting) by {
      assert [] + all.waiting == all.waiting;
      if downgrade {
        RelaunchOrder(all, sockets > 0, lock);
      }
    }
    assert sockets > 0 || !downgrade ==> host.Order() == all.waiting by {
      assert [] + all.waiting == all.waiting;
      if downgrade {
        RelaunchOrder(all, sockets > 0, lock);
      }
    }
    if downgrade {
      OneLaunched(all, sockets > 0, lock);
    }
  }

  /** The host has a channel or can get one for what the operation launches; going back to single
      mode gives the channel up. */
  predicate Served(host: Host, op: Op, sockets: int)
    reads host`channel, host`mode, host`pipeline
  {
    match op
    case Add(_) => host.Reachable(sockets)
    case Launch(_) => host.Reachable(sockets)
    case Switch(mode) => sockets > 0 || !host.Downgrade(mode)
    case _ => true
  }

  /** Finished requests and the way back to single mode may close the channel, nothing else does. */
  predicate KeepsChannel(op: Op) {
    !op.Delete? && !(op.Switch? && op.mode.Single?)
  }

  /** A channel has been opened and nothing since may have closed it. */
  predicate ChannelOpen(ops: seq<Op>) {
    ops != []
    && var op := ops[|ops| - 1];
       op.Open? || (KeepsChannel(op) && ChannelOpen(ops[..|ops| - 1]))
  }

  /** There is a socket to be had or a channel open for what op may launch after ops. */
  predicate HasConnection(ops: seq<Op>, op: Op, sockets: int) {
    sockets > 0 || match op
      case Add(_) => ChannelOpen(ops)
      case Launch(_) => ChannelOpen(ops)
      case Switch(mode) => !mode.Single?
      case _ => true
  }

  /** The operations that say how requests are to be served, and those that bring requests. */
  predicate SetsUp(op: Op) { op.Open? || op.Switch? || op.Learn? }

  predicate Joins(op: Op) { op.Add? || op.Launch? || op.Open? }

  function Noted(setting: Setting, op: Op): Setting {
    match op
    case Open(_) => setting.(open := true)
    case Switch(mode) => setting.(mode := mode)
    case Learn(close, broken, perConnection) => setting.(closing := close || broken, perConnection := perConnection)
    case _ => setting
  }

  function SettingAfter(ops: seq<Op>): Setting {
    if ops == [] then Setting(false, Single, false, 0) else Noted(SettingAfter(ops[..|ops| - 1]), ops[|ops| - 1])
  }

  method PerformOpen(host: Host, persistent: bool, ghost setting: Setting, ghost limit: Option<nat>)
    modifies host`channel, host`persistent
    ensures host.channel
    ensures old(host.IsSet(setting)) ==> host.IsSet(setting.(open := true))
    ensures old(host.Admits(limit)) ==> host.Admits(limit)
  {
    host.channel, host.persistent := true, persistent;
  }

  method PerformLearn(host: Host, close: bool, broken: bool, perConnection: int, ghost setting: Setting)
    modifies host`closeNotification, host`brokenPipe, host`reqsPerConnection
    ensures old(host.IsSet(setting)) ==>
              host.IsSet(setting.(closing := close || broken, perConnection := perConnection))
  {
    host.closeNotification, host.brokenPipe, host.reqsPerConnection := close, broken, perConnection;
  }

  lemma AdmittedIsServed(host: Host, limit: Option<nat>, op: Op, sockets: int)
    requires host.Admits(limit) && Joins(op)
    ensures Served(host, op, sockets) && host.doit.None?
  {}

  lemma OthersKeepTheQueue(queue: seq<Net>, op: Op)
    requires !op.Add? && !op.Delete?
    ensures Step(queue, op) == queue
  {}

  /** One operation, compared with the plain queue. */
  method Perform(host: Host, op: Op, sockets: int,
                 ghost setting: Setting, ghost limit: Option<nat>, ghost single: bool)
    modifies host
    ensures multiset(host.Order()) == multiset(Step(old(host.Order()), op))
    ensures old(Served(host, op, sockets)) && old(host.doit).None? ==>
              host.doit.None? && host.Order() == Step(old(host.Order()), op)
    ensures op.Open? || (old(host.channel) && KeepsChannel(op)) ==> host.channel
    ensures SetsUp(op) && old(host.IsSet(setting)) ==> host.IsSet(Noted(setting, op))
    ensures Joins(op) && old(host.Admits(limit)) ==>
              host.Admits(limit) && host.Order() == Step(old(host.Order()), op)
    ensures !(op.Switch? && (single || op.mode.Interleave?)) && old(AtMost(host, single)) ==> AtMost(host, single)
  {
    hide Step, Host.Order, Host.Admits, Host.IsSet, AtMost;
    if host.Admits(limit) && Joins(op) {
      AdmittedIsServed(host, limit, op, sockets);
    }
    if !op.Add? && !op.Delete? {
      OthersKeepTheQueue(host.Order(), op);
    }
    match op {
      case Add(net) =>
        PerformAdd(host, net, sockets, limit, single);
      case Launch(writing) =>
        PerformLaunch(host, writing, sockets, limit, single);
      case Delete(net, deleted) =>
        PerformDelete(host, net, sockets, deleted, single);
      case Switch(mode) =>
        PerformSwitch(host, mode, sockets, setting, single);
      case Open(persistent) =>
        PerformOpen(host, persistent, setting, limit);
      case Learn(close, broken, perConnection) =>
        PerformLearn(host, close, broken, perConnection, setting);
    }
  }

  function LimitAfter(ops: seq<Op>, maxPipelined: nat): Option<nat> {
    var s := SettingAfter(ops);
    Limit(s.mode, maxPipelined, s.closing, s.perConnection)
  }

  /** ops begins with setup operations that set the connection up, and after them only requests
      join or are launched. */
  ghost predicate Steady(ops: seq<Op>, setup: nat) {
    && setup <= |ops| && (forall k | 0 <= k < setup :: SetsUp(ops[k]))
    && (forall k | setup <= k < |ops| :: Joins(ops[k]))
    && SettingAfter(ops[..setup]).open
  }

  ghost predicate NoSwitch(ops: seq<Op>) { forall k | 0 <= k < |ops| :: !ops[k].Switch? }

  ghost predicate NoInterleave(ops: seq<Op>) { forall k | 0 <= k < |ops| :: ops[k] != Switch(Interleave) }

  /** The host after ops. */
  ghost predicate Fits(host: Host, ops: seq<Op>, maxPipelined: nat, setup: nat)
    reads host
  {
    && host.maxPipelined == maxPipelined && multiset(host.Order()) == multiset(Fifo(ops))
    && (ChannelOpen(ops) ==> host.channel)
    && (NoSwitch(ops) ==> AtMost(host, true)) && (NoInterleave(ops) ==> AtMost(host, false))
    && ((forall k | 0 <= k < |ops| :: SetsUp(ops[k])) ==> host.IsSet(SettingAfter(ops)))
    && (Steady(ops, setup) ==> host.Admits(LimitAfter(ops[..setup], maxPipelined)) && host.Order() == Fifo(ops))
  }

  lemma NothingYet(host: Host, ops: seq<Op>, maxPipelined: nat, setup: nat)
    requires host.IsSet(Setting(false, Single, false, 0)) && ops == [] && host.maxPipelined == maxPipelined
    ensures Fits(host, ops, maxPipelined, setup)
  {
    hide Limit;
  }

  /** What is known before the last operation. */
  lemma OneMore(host: Host, ops: seq<Op>, sockets: int, maxPipelined: nat, setup: nat)
    requires ops != [] && Fits(host, ops[..|ops| - 1], maxPipelined, setup)
    ensures var before, op := ops[..|ops| - 1], ops[|ops| - 1];
            && Fifo(ops) == Step(Fifo(before), op) && SettingAfter(ops) == Noted(SettingAfter(before), op)
            && multiset(Step(host.Order(), op)) == multiset(Fifo(ops))
            && (ChannelOpen(ops) ==> op.Open? || (KeepsChannel(op) && ChannelOpen(before)))
            && (HasConnection(before, op, sockets) ==> Served(host, op, sockets))
  {
    hide Step, Noted, Host.Order, Steady;
    SameMultiset(host.Order(), Fifo(ops[..|ops| - 1]), ops[|ops| - 1]);
  }

  /** With the connection set up requests may begin. */
  lemma MayBegin(host: Host, ops: seq<Op>, maxPipelined: nat)
    requires host.maxPipelined == maxPipelined && multiset(host.Order()) == multiset(Fifo(ops))
    ensures var s := SettingAfter(ops);
            host.IsSet(s) && s.open ==> host.Admits(LimitAfter(ops, maxPipelined)) && host.Order() == Fifo(ops)
    ensures AtMost(host, true) ==> AtMost(host, false)
  {
    hide SettingAfter, Fifo;
    if host.Order() == [] {
      assert |multiset(Fifo(ops))| == 0;
    }
  }

  lemma SteadyBefore(ops: seq<Op>, setup: nat)
    requires ops != [] && Steady(ops, setup)
    ensures setup <= |ops|
    ensures if setup == |ops| then
              (forall k | 0 <= k < |ops| :: SetsUp(ops[k])) && ops[..setup] == ops && SettingAfter(ops).open
            else
              && Steady(ops[..|ops| - 1], setup) && Joins(ops[|ops| - 1])
              && ops[..|ops| - 1][..setup] == ops[..setup]
  {
    hide SettingAfter;
    if setup < |ops| {
      assert ops[..|ops| - 1][..setup] == ops[..setup];
    } else {
      assert ops[..setup] == ops;
    }
  }

  /** The last operation of ops. */
  method PerformNext(host: Host, ops: seq<Op>, sockets: int, ghost maxPipelined: nat, ghost setup: nat)
    requires ops != [] && Fits(host, ops[..|ops| - 1], maxPipelined, setup)
    modifies host
    ensures Fits(host, ops, maxPipelined, setup)
    ensures old(Served(host, ops[|ops| - 1], sockets)) && old(host.doit).None? ==>
              host.doit.None? && host.Order() == Step(old(host.Order()), ops[|ops| - 1])
  {
    hide Step, Noted, LimitAfter, Host.Admits, Host.IsSet, Host.Order, HasConnection, AtMost, ChannelOpen, SettingAfter,
         Fifo, Served, Steady;
    ghost var before, op := ops[..|ops| - 1], ops[|ops| - 1];
    assert ops == before + [op];
    OneMore(host, ops, sockets, maxPipelined, setup);
    if Steady(ops, setup) {
      SteadyBefore(ops, setup);
    }
    ghost var limit := LimitAfter(if setup <= |ops| then ops[..setup] else ops, maxPipelined);
    Perform(host, ops[|ops| - 1], sockets, SettingAfter(before), limit, NoSwitch(ops));
    MayBegin(host, ops, maxPipelined);
  }

  lemma FirstActive(host: Host, limit: Option<nat>)
    requires host.Admits(limit)
    ensures host.pipeline == First(host.Order(), limit)
  {
    hide Limit;
    assert host.Order()[..|host.pipeline|] == host.pipeline;
    assert host.pending == [] ==> host.Order() == host.pipeline;
  }

  lemma AfterAll(host: Host, ops: seq<Op>, maxPipelined: nat, setup: nat)
    requires Fits(host, ops, maxPipelined, setup)
    ensures host.Order() == host.pipeline + host.pending && multiset(host.Order()) == multiset(Fifo(ops))
    ensures NoSwitch(ops) ==> |host.pipeline| <= 1
    ensures NoInterleave(ops) ==> |host.pipeline| <= Most(1, maxPipelined)
    ensures Steady(ops, setup) ==>
              && host.pipeline == First(Fifo(ops), LimitAfter(ops[..setup], maxPipelined))
              && host.pipeline + host.pending == Fifo(ops)
  {
    hide LimitAfter, Fifo, SettingAfter, Host.Admits;
    if Steady(ops, setup) {
      FirstActive(host, LimitAfter(ops[..setup], maxPipelined));
    }
  }

  /** The first entries, up to a limit. */
  function First(queue: seq<Net>, limit: Option<nat>): seq<Net> {
    if limit.None? || |queue| <= limit.value then queue else queue[..limit.value]
  }

  /** Whatever happens, no request is lost or duplicated; and as long as every operation finds a
      channel open or a socket free, active and pending requests together are a plain queue.
      setup tells how many operations come before the first request. */
  method Serve(ops: seq<Op>, sockets: seq<int>, maxPipelined: nat, maxRecover: nat, ghost setup: nat)
    returns (active: seq<Net>, waiting: seq<Net>, served: bool)
    requires |sockets| == |ops| && setup <= |ops|
    ensures multiset(active + waiting) == multiset(Fifo(ops))
    ensures served ==> active + waiting == Fifo(ops)
    ensures (forall k | 0 <= k < |ops| :: HasConnection(ops[..k], ops[k], sockets[k])) ==> served
    // how many are active: one without a change of mode, as many as the pipeline takes without interleaving
    ensures (forall k | 0 <= k < |ops| :: !ops[k].Switch?) ==> |active| <= 1
    ensures (forall k | 0 <= k < |ops| :: ops[k] != Switch(Interleave)) ==>
              |active| <= if maxPipelined > 1 then maxPipelined else 1
    // which: on an open channel, as long as nothing is deleted, the first ones
    ensures Steady(ops, setup) ==>
              && active == First(Fifo(ops), LimitAfter(ops[..setup], maxPipelined))
              && active + waiting == Fifo(ops)
  {
    hide Fits, Host.Order, HasConnection, Served, First, LimitAfter, SettingAfter;
    var host := new Host(maxPipelined, maxRecover);
    served := true;
    NothingYet(host, ops[..0], maxPipelined, setup);
    for i := 0 to |ops|
      invariant Fits(host, ops[..i], maxPipelined, setup)
      invariant served ==> host.doit.None? && host.Order() == Fifo(ops[..i])
      invariant (forall k | 0 <= k < i :: HasConnection(ops[..k], ops[k], sockets[k])) ==> served
    {
      assert ops[..i + 1][..i] == ops[..i] && ops[..i + 1][i] == ops[i];
      OneMore(host, ops[..i + 1], sockets[i], maxPipelined, setup);
      served := served && Served(host, ops[i], sockets[i]);
      PerformNext(host, ops[..i + 1], sockets[i], maxPipelined, setup);
    }
    assert ops[..|ops|] == ops;
    active, waiting := host.pipeline, host.pending;
    AfterAll(host, ops, maxPipelined, setup);
  }
}
