/** `NameServerPool`: the name servers of one resolver configuration, and the dispatch of
    every query to the best-ranked of them. */
module Pool {
  import opened Types
  import State
  import opened ServerStats
  import opened ServerSpec
  import opened NameServers

  /** What a freshly created server looks like: default statistics behind a healthy lock. */
  function FreshView(): (v: ServerView) {
    ServerView(Stats(State.Init(None), 0, 0), false)
  }

  class NameServerPool {
    /** The servers in heap order: `conns[0]` is the one `peek_mut` selects. */
    var conns: seq<NameServer>
    const opts: ResolverOpts

    /** Every server is valid, and no two share a handle, a connection or statistics. */
    ghost predicate Valid()
      reads this, conns
    {
      && (forall i :: 0 <= i < |conns| ==> conns[i].Valid())
      && (forall i, j :: 0 <= i < j < |conns| ==>
            conns[i] != conns[j] && conns[i].client != conns[j].client &&
            conns[i].stats != conns[j].stats && conns[i].stats.stats != conns[j].stats.stats)
    }

    /** `from_config`: one new server per configured name server. All of them start with
        equal statistics and so compare `Equal`. */
    constructor FromConfig(config: ResolverConfig, opts: ResolverOpts)
      requires forall i :: 0 <= i < |config.nameServers| ==> config.nameServers[i].protocol != Tls
      ensures Valid() && this.opts == opts
      ensures |conns| == |config.nameServers|
      ensures forall i :: 0 <= i < |conns| ==>
        && fresh(conns[i]) && fresh(conns[i].client) && fresh(conns[i].stats) && fresh(conns[i].stats.stats)
        && conns[i].config == config.nameServers[i]
        && conns[i].View() == FreshView() && conns[i].client.sent == []
    {
      var servers: seq<NameServer> := [];
      var i := 0;
      while i < |config.nameServers|
        invariant 0 <= i <= |config.nameServers| && |servers| == i
        invariant forall k :: 0 <= k < i ==>
          && fresh(servers[k]) && fresh(servers[k].client) && fresh(servers[k].stats) && fresh(servers[k].stats.stats)
          && servers[k].Valid() && servers[k].config == config.nameServers[k]
          && servers[k].View() == FreshView() && servers[k].client.sent == []
        invariant forall k, l :: 0 <= k < l < i ==>
          servers[k] != servers[l] && servers[k].client != servers[l].client &&
          servers[k].stats != servers[l].stats && servers[k].stats.stats != servers[l].stats.stats
      {
        var server := new NameServer(config.nameServers[i]);
        servers := servers + [server];
        i := i + 1;
      }
      conns := servers;
      this.opts := opts;
    }

    /** `ClientHandle::send`: fails with `NoConnections` on an empty pool; otherwise the
        first server alone handles the query and its result is returned as it is. */
    method Send(message: Message, outcome: Result<Message>, start: Instant, finish: Instant)
      returns (r: Result<Message>)
      requires Valid() && start <= finish
      requires |conns| > 0 ==> ClockAfter(conns[0].View(), start)
      modifies if |conns| > 0 then {conns[0], conns[0].client, conns[0].stats.stats} else {}
      ensures Valid() && conns == old(conns)
      ensures |conns| == 0 ==> r == Err(NoConnections)
      ensures |conns| > 0 ==>
        && r == ServerSpec.Send(old(conns[0].View()), outcome, start, finish).result
        && conns[0].View() == ServerSpec.Send(old(conns[0].View()), outcome, start, finish).server
        && conns[0].client.sent ==
             (if ServerSpec.Send(old(conns[0].View()), outcome, start, finish).reconnected
              then [] else old(conns[0].client.sent)) +
             (if ServerSpec.Send(old(conns[0].View()), outcome, start, finish).transported
              then [message] else [])
      ensures forall i :: 1 <= i < |conns| ==>
        conns[i].View() == old(conns[i].View()) && conns[i].client.sent == old(conns[i].client.sent)
    {
      if |conns| == 0 {
        return Err(NoConnections);
      }
      var conn := conns[0];
      r := conn.Send(message, outcome, start, finish);
    }
  }

  /** Servers that have not yet been used all compare `Equal`, in both directions. */
  lemma FreshServersCompareEqual(a: NameServer, b: NameServer)
    requires a.View() == FreshView() && b.View() == FreshView()
    requires a.config != b.config ==> a.stats != b.stats
    ensures a.Compare(b) == Equal && b.Compare(a) == Equal
  {
  }

  /** A server that has not been used yet outranks one that has succeeded, however many
      successes it has: the state's rank dominates the counters. */
  lemma UnusedServerOutranksEstablished(unused: Stats, used: Stats)
    requires unused.state.Init? && used.state.Established?
    ensures ServerStats.Compare(unused, used) == Greater && ServerStats.Compare(used, unused) == Less
  {
  }
}
