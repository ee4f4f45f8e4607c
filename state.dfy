/** `NameServerState`: the state of the connection with one remote name server, and the
    rank that orders the three states. */
module State {
  import opened Types

  datatype NameServerState =
      /** No exchange has completed yet; EDNS is requested when `sendEdns` is present. */
    | Init(sendEdns: Option<Edns>)
      /** An exchange succeeded; no EDNS here means the remote does not support it. */
    | Established(remoteEdns: Option<Edns>)
      /** The connection failed with `error` at `when`; a new connection is needed. */
    | Failed(error: ClientError, when: Instant)

  /** `to_usize`: the preference of a state, higher is better. */
  function Rank(s: NameServerState): (r: nat)
    ensures 1 <= r <= 3
    ensures r == 3 <==> s.Init?
    ensures r == 1 <==> s.Failed?
  {
    match s
    case Init(_) => 3
    case Established(_) => 2
    case Failed(_, _) => 1
  }

  /** `Ord::cmp` for `NameServerState`. */
  function Compare(a: NameServerState, b: NameServerState): (o: Ordering)
    ensures o == Equal <==> a.Init? == b.Init? && a.Established? == b.Established?
    ensures o == Greater <==> (a.Init? && !b.Init?) || (a.Established? && b.Failed?)
  {
    CompareNat(Rank(a), Rank(b))
  }

  /** `PartialEq::eq` for `NameServerState`. */
  function Same(a: NameServerState, b: NameServerState): (r: bool)
    ensures r <==> a.Init? == b.Init? && a.Established? == b.Established? && a.Failed? == b.Failed?
  {
    Rank(a) == Rank(b)
  }

  /** Equality and ordering never look at the EDNS, error or time a state carries:
      replacing either side by a state of the same variant changes nothing. */
  lemma CompareIgnoresPayload(a: NameServerState, a': NameServerState, b: NameServerState, b': NameServerState)
    requires Same(a, a') && Same(b, b')
    ensures Compare(a, b) == Compare(a', b')
    ensures Same(a, b) == Same(a', b')
  {
  }

  /** The state ordering is a total order on variants: equality is `Same`, and swapping
      the arguments reverses the answer. */
  lemma CompareIsTotal(a: NameServerState, b: NameServerState)
    ensures Compare(a, b) == Equal <==> Same(a, b)
    ensures Compare(b, a) == Reverse(Compare(a, b))
  {
  }
}
