/** `NameServerStats`: the connection state of one server together with its success and
    failure counters, the two transitions that update it in place, and the comparator that
    ranks servers by it. */
module ServerStats {
  import opened Types
  import State

  /** The value of a `NameServerStats`, as `Clone`, `PartialEq` and `Ord` see it. */
  datatype Stats = Stats(state: State.NameServerState, successes: nat, failures: nat)

  /** The derived `PartialEq`: the states by rank only, the counters exactly. */
  function Same(a: Stats, b: Stats): (r: bool)
    ensures r <==> && a.state.Init? == b.state.Init? && a.state.Established? == b.state.Established?
                   && a.successes == b.successes && a.failures == b.failures
  {
    State.Same(a.state, b.state) && a.successes == b.successes && a.failures == b.failures
  }

  /** `Ord::cmp` for `NameServerStats`; `Greater` means preferred by the pool. A state of
      higher rank always wins. Between equal ranks, the side with no more failures than the
      other is `Greater` unless the two are `Same`, and otherwise the successes decide. */
  function Compare(a: Stats, b: Stats): (o: Ordering)
    ensures State.Rank(a.state) != State.Rank(b.state) ==> o == State.Compare(a.state, b.state)
    ensures o == Equal <==>
      State.Same(a.state, b.state) && a.successes == b.successes && a.failures >= b.failures
    ensures o == Less <==>
      State.Rank(a.state) < State.Rank(b.state) ||
      (State.Same(a.state, b.state) && a.failures > b.failures && a.successes < b.successes)
  {
    if Same(a, b) then Equal
    else
      match State.Compare(a.state, b.state)
      case Equal =>
        // the failure comparison is inverted: fewer or equal failures rank higher
        if a.failures <= b.failures then Greater
        else CompareNat(a.successes, b.successes)
      case o => o
  }

  /** The statistics after `next_success` with the EDNS record of the response. */
  function AfterSuccess(s: Stats, remoteEdns: Option<Edns>): (t: Stats)
    ensures t.successes == s.successes + 1 && t.failures == s.failures
    ensures t.state.Established?
    ensures remoteEdns.Some? ==> t.state.remoteEdns == remoteEdns
    ensures remoteEdns.None? && s.state.Established? ==> t.state.remoteEdns == s.state.remoteEdns
    ensures remoteEdns.None? && !s.state.Established? ==> t.state.remoteEdns == None
  {
    var kept := if remoteEdns.Some? then remoteEdns
                else if s.state.Established? then s.state.remoteEdns
                else None;
    Stats(State.Established(kept), s.successes + 1, s.failures)
  }

  /** The statistics after `next_failure` with the error and the time it was seen. */
  function AfterFailure(s: Stats, error: ClientError, when: Instant): (t: Stats)
    ensures t.failures == s.failures + 1 && t.successes == s.successes
    ensures t.state == State.Failed(error, when)
  {
    Stats(State.Failed(error, when), s.successes, s.failures + 1)
  }

  /** The shared statistics record of one server. */
  class NameServerStats {
    var state: State.NameServerState
    var successes: nat
    var failures: nat

    function Value(): (s: Stats)
      reads this
    {
      Stats(state, successes, failures)
    }

    /** `NameServerStats::init`. */
    constructor Init(sendEdns: Option<Edns>, successes: nat, failures: nat)
      ensures Value() == Stats(State.Init(sendEdns), successes, failures)
    {
      this.state := State.Init(sendEdns);
      this.successes := successes;
      this.failures := failures;
    }

    /** `Default::default`: `init(None, 0, 0)`. */
    constructor Default()
      ensures Value() == Stats(State.Init(None), 0, 0)
    {
      state := State.Init(None);
      successes := 0;
      failures := 0;
    }

    /** `next_success`: count the success and move to `Established`, keeping an already
        negotiated EDNS record when the response carries none. */
    method NextSuccess(remoteEdns: Option<Edns>)
      modifies this
      ensures Value() == AfterSuccess(old(Value()), remoteEdns)
    {
      successes := successes + 1;
      if remoteEdns.Some? {
        state := State.Established(remoteEdns);
      } else {
        var kept := if state.Established? then state.remoteEdns else None;
        state := State.Established(kept);
      }
    }

    /** `next_failure`: count the failure and move to `Failed`. */
    method NextFailure(error: ClientError, when: Instant)
      modifies this
      ensures Value() == AfterFailure(old(Value()), error, when)
    {
      failures := failures + 1;
      state := State.Failed(error, when);
    }
  }

  /** Statistics compare `Equal` to themselves. */
  lemma CompareReflexive(a: Stats)
    ensures Compare(a, a) == Equal
  {
  }

  /** Neither the EDNS records, nor the error, nor the failure time take part in the
      ranking: only the state's rank and the two counters do. */
  lemma CompareIgnoresPayload(a: Stats, a': Stats, b: Stats, b': Stats)
    requires Same(a, a') && Same(b, b')
    ensures Compare(a, b) == Compare(a', b')
  {
  }

  /** With equal ranks and equal failure counts but different successes, each side compares
      `Greater` than the other. */
  lemma TiedFailuresBothGreater(a: Stats, b: Stats)
    requires State.Same(a.state, b.state) && a.failures == b.failures && a.successes != b.successes
    ensures Compare(a, b) == Greater && Compare(b, a) == Greater
  {
  }

  /** When two records are each `Greater` than the other: the ranks are equal, and either the
      failures are tied and the successes differ, or the side with more failures also has
      more successes (it wins on successes, the other wins on failures). */
  lemma MutuallyGreaterExactly(a: Stats, b: Stats)
    ensures (Compare(a, b) == Greater && Compare(b, a) == Greater) <==>
      && State.Same(a.state, b.state)
      && (|| (a.failures == b.failures && a.successes != b.successes)
          || (a.failures < b.failures && b.successes > a.successes)
          || (b.failures < a.failures && a.successes > b.successes))
  {
  }

  /** The headline of `TiedFailuresBothGreater`, stated as a fact about the comparator as a
      whole: it is not antisymmetric, and hence not a total order. */
  lemma CompareIsNotAntisymmetric()
    ensures exists a: Stats, b: Stats :: Compare(a, b) == Greater && Compare(b, a) == Greater
  {
    var a := Stats(State.Init(None), 1, 0);
    var b := Stats(State.Init(None), 0, 0);
    assert Compare(a, b) == Greater && Compare(b, a) == Greater;
  }

  /** `Equal` is not symmetric either: the side with more failures and as many successes is
      `Equal` to the other, which in turn is `Greater`. */
  lemma EqualIsNotSymmetric(a: Stats, b: Stats)
    requires State.Same(a.state, b.state) && a.failures > b.failures && a.successes == b.successes
    ensures Compare(a, b) == Equal && Compare(b, a) == Greater
  {
  }

  /** `Less` is the one answer the comparator always reverses consistently. */
  lemma LessReverses(a: Stats, b: Stats)
    ensures Compare(a, b) == Less ==> Compare(b, a) == Greater
  {
  }

  /** After a failure a server ranks below every server that has not failed, whatever the
      counters of either. */
  lemma FailureRanksBelowHealthy(s: Stats, error: ClientError, when: Instant, other: Stats)
    requires !other.state.Failed?
    ensures Compare(AfterFailure(s, error, when), other) == Less
    ensures Compare(other, AfterFailure(s, error, when)) == Greater
  {
  }
}
