/** `NameServer`: one configured server, its current connection and its shared statistics,
    with reconnect-after-backoff and the bookkeeping around every send. */
module NameServers {
  import opened Types
  import State
  import opened ServerStats
  import opened ServerSpec

  /** The client handle of one connection. The answer of the remote is not computed here:
      each send is given it, and the connection records what was sent on it. */
  class Connection {
    const config: NameServerConfig
    var sent: seq<Message>

    /** `new_connection`: a UDP or TCP client for the configured address. */
    constructor (config: NameServerConfig)
      requires config.protocol != Tls
      ensures this.config == config && sent == []
    {
      this.config := config;
      sent := [];
    }

    method Send(message: Message, outcome: Result<Message>) returns (r: Result<Message>)
      modifies this
      ensures sent == old(sent) + [message] && r == outcome
    {
      sent := sent + [message];
      r := outcome;
    }
  }

  /** The `Mutex` that guards a `NameServerStats`; `poisoned` stands for a lock that a
      panicking holder left behind, which can no longer be acquired. */
  class StatsLock {
    var poisoned: bool
    const stats: NameServerStats

    constructor (stats: NameServerStats)
      ensures this.stats == stats && !poisoned
    {
      this.stats := stats;
      poisoned := false;
    }
  }

  class NameServer {
    const config: NameServerConfig
    var client: Connection
    var stats: StatsLock

    /** The connection always goes to the configured server. */
    ghost predicate Valid()
      reads this
    {
      client.config == config && config.protocol != Tls
    }

    function View(): (v: ServerView)
      reads this, stats, stats.stats
    {
      ServerView(stats.stats.Value(), stats.poisoned)
    }

    /** `NameServer::new`: a new connection and default statistics. */
    constructor (config: NameServerConfig)
      requires config.protocol != Tls
      ensures Valid() && this.config == config
      ensures fresh(client) && fresh(stats) && fresh(stats.stats)
      ensures client.sent == [] && View() == ServerView(Stats(State.Init(None), 0, 0), false)
    {
      this.config := config;
      client := new Connection(config);
      var initial := new NameServerStats.Default();
      stats := new StatsLock(initial);
    }

    /** `try_reconnect`: a `Failed` server gets a new connection and a new lock around fresh
        `Init` statistics once the backoff window has passed; inside the window the stored
        error is returned and nothing changes. */
    method TryReconnect(now: Instant) returns (r: Result<()>)
      requires Valid() && ClockAfter(View(), now)
      modifies this
      ensures Valid()
      ensures Decide(old(View()), now).Reconnect? ==>
        && fresh(client) && fresh(stats) && fresh(stats.stats)
        && client.sent == [] && View() == Reconnected(old(View())) && r == Ok(())
      ensures !Decide(old(View()), now).Reconnect? ==>
        client == old(client) && stats == old(stats) && View() == old(View())
      ensures Decide(old(View()), now).Proceed? ==> r == Ok(())
      ensures Decide(old(View()), now).LockFailed? ==> r == Err(LockPoisoned)
      ensures Decide(old(View()), now).BackingOff? ==> r == Err(Decide(old(View()), now).error)
    {
      if stats.poisoned {
        return Err(LockPoisoned);
      }
      var state := stats.stats.state;
      if state.Failed? {
        if now - state.when > MaxRetryDelay {
          client := new Connection(config);
          var reset := new NameServerStats.Init(None, stats.stats.successes, stats.stats.failures);
          stats := new StatsLock(reset);
          return Ok(());
        }
        return Err(state.error);
      }
      return Ok(());
    }

    /** `ClientHandle::send`: no transport call while backing off; otherwise one call on the
        (possibly new) connection, whose answer is recorded in the statistics. */
    method Send(message: Message, outcome: Result<Message>, start: Instant, finish: Instant)
      returns (r: Result<Message>)
      requires Valid() && ClockAfter(View(), start) && start <= finish
      modifies this, client, stats.stats
      ensures Valid()
      ensures r == ServerSpec.Send(old(View()), outcome, start, finish).result
      ensures View() == ServerSpec.Send(old(View()), outcome, start, finish).server
      ensures ServerSpec.Send(old(View()), outcome, start, finish).reconnected ==>
        fresh(client) && fresh(stats) && fresh(stats.stats)
      ensures !ServerSpec.Send(old(View()), outcome, start, finish).reconnected ==>
        client == old(client) && stats == old(stats)
      ensures client.sent ==
        (if ServerSpec.Send(old(View()), outcome, start, finish).reconnected then [] else old(client.sent)) +
        (if ServerSpec.Send(old(View()), outcome, start, finish).transported then [message] else [])
    {
      var reconnect := TryReconnect(start);
      if reconnect.Err? {
        return Err(reconnect.error);
      }
      var lock := stats;
      var answer := client.Send(message, outcome);
      match answer
      case Ok(response) =>
        if lock.poisoned {
          r := Err(LockPoisoned);
        } else {
          lock.stats.NextSuccess(response.edns);
          r := Ok(response);
        }
      case Err(error) =>
        // a poisoned lock is ignored here: the transport error is what the caller gets
        if !lock.poisoned {
          lock.stats.NextFailure(error, finish);
        }
        r := Err(error);
    }

    /** `PartialEq::eq`: the same configured server. */
    function SameServer(other: NameServer): (r: bool)
      ensures r <==> config.socketAddr == other.config.socketAddr && config.protocol == other.config.protocol
    {
      config == other.config
    }

    /** `Ord::cmp`: handles of the same configured server are `Equal`; otherwise the
        statistics decide. For two different servers, both locks must be healthy (`expect`
        panics otherwise) and must not be one lock, which would be locked twice. */
    function Compare(other: NameServer): (o: Ordering)
      reads this, other, stats, other.stats, stats.stats, other.stats.stats
      requires config != other.config ==> !stats.poisoned && !other.stats.poisoned && stats != other.stats
      ensures SameServer(other) ==> o == Equal
      ensures !SameServer(other) ==> o == ServerStats.Compare(View().stats, other.View().stats)
    {
      if config == other.config then Equal
      else ServerStats.Compare(stats.stats.Value(), other.stats.stats.Value())
    }
  }
}
