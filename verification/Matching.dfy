/** When a tuple of stimulus and observation fits. */
module Matching {
  import opened Common
  import opened Telemetry

  /** Upper-casing and address syntax of the runtime. */
  datatype Rules = Rules(upper: string -> string, isAddress: string -> bool)

  predicate Compatible<T(==)>(a: Option<T>, b: Option<T>) {
    a.None? || b.None? || a == b
  }

  function Normalized(t: FiveTuple, rules: Rules): FiveTuple {
    match t.protocol case None => t case Some(p) => t.(protocol := Some(rules.upper(p)))
  }

  predicate TuplesCompatible(a: FiveTuple, b: FiveTuple) {
    && Compatible(a.srcIp, b.srcIp) && Compatible(a.dstIp, b.dstIp) && Compatible(a.protocol, b.protocol)
    && Compatible(a.srcPort, b.srcPort) && Compatible(a.dstPort, b.dstPort)
  }

  predicate FiveTupleMatches(a: FiveTuple, b: FiveTuple, rules: Rules) {
    TuplesCompatible(Normalized(a, rules), Normalized(b, rules))
  }

  predicate AddressOk(a: Option<string>, rules: Rules) {
    a.Some? ==> rules.isAddress(a.value)
  }

  predicate ObservationMatches(stimulus: FiveTuple, observed: FiveTuple, rules: Rules) {
    && (observed.srcIp.Some? || observed.dstIp.Some?)
    && AddressOk(observed.srcIp, rules) && AddressOk(observed.dstIp, rules)
    && FiveTupleMatches(stimulus, observed, rules)
  }

  // ------------------------------------------------------------------ what a match means

  predicate Concrete(t: FiveTuple) {
    t.srcIp.Some? && t.dstIp.Some? && t.protocol.Some? && t.srcPort.Some? && t.dstPort.Some?
  }

  predicate Covers<T(==)>(general: Option<T>, special: Option<T>) {
    general.None? || general == special
  }

  /** `t` says at least what `general` says, protocols up to case. */
  predicate Refines(t: FiveTuple, general: FiveTuple, rules: Rules) {
    var a, b := Normalized(general, rules), Normalized(t, rules);
    && Covers(a.srcIp, b.srcIp) && Covers(a.dstIp, b.dstIp) && Covers(a.protocol, b.protocol)
    && Covers(a.srcPort, b.srcPort) && Covers(a.dstPort, b.dstPort)
  }

  function Either<T>(a: Option<T>, b: Option<T>, other: T): (r: Option<T>)
    ensures r.Some?
  {
    if a.Some? then a else if b.Some? then b else Some(other)
  }

  /** Two tuples match iff one traffic flow can be described by both. */
  lemma {:induction false} MatchIsCommonRefinement(a: FiveTuple, b: FiveTuple, rules: Rules)
    ensures FiveTupleMatches(a, b, rules) <==>
            exists t: FiveTuple :: Concrete(t) && Refines(t, a, rules) && Refines(t, b, rules)
  {
    if FiveTupleMatches(a, b, rules) {
      var t := FiveTuple(Either(a.srcIp, b.srcIp, ""), Either(a.dstIp, b.dstIp, ""), Either(a.protocol, b.protocol, ""),
                         Either(a.srcPort, b.srcPort, 0), Either(a.dstPort, b.dstPort, 0));
      assert Concrete(t) && Refines(t, a, rules) && Refines(t, b, rules);
    }
  }

  /** One of the stimulus' endpoints is free or an address, so that something observed can fit it. */
  predicate Observable(stimulus: FiveTuple, rules: Rules) {
    AddressOk(stimulus.srcIp, rules) || AddressOk(stimulus.dstIp, rules)
  }

  /** An observation that names one endpoint, and otherwise nothing. */
  function OneEndpoint(stimulus: FiveTuple, rules: Rules, address: string): FiveTuple {
    if AddressOk(stimulus.srcIp, rules)
    then FiveTuple(Either(stimulus.srcIp, None, address), None, None, None, None)
    else FiveTuple(None, Either(stimulus.dstIp, None, address), None, None, None)
  }

  /** Some observation fits a stimulus iff the stimulus is observable. */
  lemma {:induction false} ObservableIff(stimulus: FiveTuple, rules: Rules, address: string)
    requires rules.isAddress(address)
    ensures Observable(stimulus, rules) <==> exists o: FiveTuple :: ObservationMatches(stimulus, o, rules)
  {
    if Observable(stimulus, rules) {
      assert ObservationMatches(stimulus, OneEndpoint(stimulus, rules, address), rules);
    }
  }

  /** Protocols are compared in upper case; the other components do not care. */
  lemma {:induction false} ProtocolCase(a: FiveTuple, b: FiveTuple, p: string, q: string, rules: Rules)
    ensures FiveTupleMatches(a.(protocol := Some(p)), b.(protocol := Some(q)), rules) <==>
            && rules.upper(p) == rules.upper(q)
            && FiveTupleMatches(a.(protocol := None), b.(protocol := None), rules)
    ensures FiveTupleMatches(a.(protocol := None), b.(protocol := Some(q)), rules) <==>
            FiveTupleMatches(a.(protocol := None), b.(protocol := None), rules)
  {
  }

  /** A narrower stimulus matches no more observations. */
  lemma {:induction false} NarrowerMatchesLess(narrow: FiveTuple, wide: FiveTuple, observed: FiveTuple, rules: Rules)
    requires Refines(narrow, wide, rules) && ObservationMatches(narrow, observed, rules)
    ensures ObservationMatches(wide, observed, rules)
  {
  }
}
