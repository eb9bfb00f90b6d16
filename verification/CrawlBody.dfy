/** The crawler's bounded reading of a response body. */
module CrawlBody {
  import opened Common

  const READ_SIZE := 16384

  /** What the connection has next: bytes, a failure with the bytes that came with it, or the end. */
  datatype Piece = Got(bytes: seq<int>) | Broken(partial: seq<int>) | End

  datatype Outcome = Complete | LimitReached | Mismatch | Failed | Late

  datatype Fetch = Fetch(body: seq<int>, outcome: Outcome, succeeded: bool)

  predicate Is2xx(status: int) {
    200 <= status < 300
  }

  /** All bytes the connection would deliver. */
  function Content(pieces: seq<Piece>): seq<int> {
    if pieces == [] || !pieces[0].Got? || pieces[0].bytes == [] then [] else pieces[0].bytes + Content(pieces[1..])
  }

  /** The bytes that come with the failure that ends the connection; None if it ends in order. */
  function Breaking(pieces: seq<Piece>): Option<seq<int>> {
    if pieces == [] || pieces[0].End? || (pieces[0].Got? && pieces[0].bytes == []) then None
    else if pieces[0].Broken? then Some(pieces[0].partial)
    else Breaking(pieces[1..])
  }

  /** Everything that arrives, with a failure's bytes. */
  function Arriving(pieces: seq<Piece>): seq<int> {
    match Breaking(pieces) case None => Content(pieces) case Some(partial) => Content(pieces) + partial
  }

  function Prefix(s: seq<int>, n: nat): (r: seq<int>)
    ensures r <= s && |r| == if |s| <= n then |s| else n
  {
    if |s| <= n then s else s[..n]
  }

  /** One read of at most `n` bytes, and what is left; no bytes mean the end. */
  function Read(pieces: seq<Piece>, n: nat): (r: (Piece, seq<Piece>))
    requires n > 0
  {
    if pieces == [] || pieces[0].End? || (pieces[0].Got? && pieces[0].bytes == []) then (End, [])
    else if pieces[0].Broken? then (pieces[0], [])
    else if |pieces[0].bytes| <= n then (pieces[0], pieces[1..])
    else (Got(pieces[0].bytes[..n]), [Got(pieces[0].bytes[n..])] + pieces[1..])
  }

  /** All of the content came, or as much as a declared length at the cap allows. */
  predicate IsWhole(content: seq<int>, maxBytes: nat, expected: Option<nat>) {
    if |content| >= maxBytes then expected == Some(maxBytes) else expected.None? || expected == Some(|content|)
  }

  /** What a connection that is read in time comes to, however it is cut into pieces. */
  predicate IsFetchOf(r: Fetch, source: seq<Piece>, maxBytes: nat, expected: Option<nat>, status: int) {
    var content := Content(source);
    && r.body == Prefix(Arriving(source), maxBytes)
    && (r.outcome.LimitReached? <==> |content| >= maxBytes && expected != Some(maxBytes))
    && (r.outcome.Failed? <==> |content| < maxBytes && Breaking(source).Some?)
    && (r.outcome.Complete? <==>
        IsWhole(content, maxBytes, expected) && (|content| < maxBytes ==> Breaking(source).None?))
    && !r.outcome.Late?
    && (r.succeeded <==> r.outcome.Complete? && 200 <= status <= 299)
  }

  lemma {:induction false} ReadIsPrefix(pieces: seq<Piece>, n: nat)
    requires n > 0
    ensures var (p, rest) := Read(pieces, n);
            && (p.Got? ==> p.bytes != [] && |p.bytes| <= n && Content(pieces) == p.bytes + Content(rest)
                           && Breaking(pieces) == Breaking(rest))
            && (p.End? ==> Content(pieces) == [] && Breaking(pieces) == None)
            && (p.Broken? ==> Content(pieces) == [] && Breaking(pieces) == Some(p.partial))
  {
  }

  lemma {:induction false} PrefixBehind(body: seq<int>, more: seq<int>, n: nat)
    requires |body| <= n
    ensures Prefix(body + more, n) == body + Prefix(more, n - |body|)
  {
  }

  /** The cap is reached before anything else happened. */
  lemma {:induction false} AtCap(
      body: seq<int>, source: seq<Piece>, rest: seq<int>, maxBytes: nat, expected: Option<nat>, status: int)
    requires Content(source) == body + rest && |body| == maxBytes
    ensures if expected == Some(maxBytes)
            then IsFetchOf(Fetch(body, Complete, Is2xx(status)), source, maxBytes, expected, status)
            else IsFetchOf(Fetch(body, LimitReached, false), source, maxBytes, expected, status)
  {
    hide Content, Breaking;
    var more := match Breaking(source) case None => rest case Some(partial) => rest + partial;
    assert Arriving(source) == body + more;
    PrefixBehind(body, more, maxBytes);
  }

  /** The connection fails below the cap. */
  lemma {:induction false} AtFailure(
      body: seq<int>, source: seq<Piece>, maxBytes: nat, expected: Option<nat>, status: int)
    requires Content(source) == body && |body| < maxBytes && Breaking(source).Some?
    ensures var r := Fetch(body + Prefix(Breaking(source).value, maxBytes - |body|), Failed, false);
            IsFetchOf(r, source, maxBytes, expected, status)
  {
    hide Content, Breaking;
    PrefixBehind(body, Breaking(source).value, maxBytes);
  }

  /** The connection ends in order below the cap. */
  lemma {:induction false} AtEnd(
      body: seq<int>, source: seq<Piece>, maxBytes: nat, expected: Option<nat>, status: int)
    requires Content(source) == body && |body| < maxBytes && Breaking(source).None?
    ensures var r := if expected.Some? && |body| != expected.value then Fetch(body, Mismatch, false)
                     else Fetch(body, Complete, Is2xx(status));
            IsFetchOf(r, source, maxBytes, expected, status)
  {
    hide Content, Breaking;
  }

  /**
    * The body loop: it ends and never takes more than `maxBytes`. In time, body, outcome and success are given by what
    * arrives, however it is cut into pieces; too late, the body is a beginning of the content and nothing succeeded.
    */
  method ReadBody(
      source: seq<Piece>, maxBytes: nat, expected: Option<nat>, status: int, inTime: nat -> bool) returns (r: Fetch)
    requires maxBytes > 0
    ensures |r.body| <= maxBytes
    ensures r.outcome.Late? ==> r.body <= Content(source) && !r.succeeded && exists k :: !inTime(k)
    ensures !r.outcome.Late? ==> IsFetchOf(r, source, maxBytes, expected, status)
  {
    hide Content, Breaking, Read, IsFetchOf, Prefix;
    var body: seq<int> := [];
    var pieces := source;
    var round := 0;
    while true
      invariant |body| <= maxBytes
      invariant Content(source) == body + Content(pieces) && Breaking(source) == Breaking(pieces)
      decreases maxBytes - |body|
    {
      if !inTime(round) {
        return Fetch(body, Late, false);
      }
      if |body| == maxBytes {
        AtCap(body, source, Content(pieces), maxBytes, expected, status);
        if expected == Some(|body|) {
          break;
        }
        return Fetch(body, LimitReached, false);
      }
      var n := if READ_SIZE <= maxBytes - |body| then READ_SIZE else maxBytes - |body|;
      var (p, rest) := Read(pieces, n);
      ReadIsPrefix(pieces, n);
      if p.Broken? {
        AtFailure(body, source, maxBytes, expected, status);
        return Fetch(body + Prefix(p.partial, maxBytes - |body|), Failed, false);
      }
      if p.End? {
        AtEnd(body, source, maxBytes, expected, status);
        break;
      }
      body, pieces, round := body + p.bytes, rest, round + 1;
    }
    if expected.Some? && |body| != expected.value {
      return Fetch(body, Mismatch, false);
    }
    r := Fetch(body, Complete, Is2xx(status));
  }
}
