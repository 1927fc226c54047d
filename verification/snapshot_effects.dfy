/**
 * How the snapshot stream answers each call: what it asks of a header and of a project, which error comes first,
 * and what is counted for a line that was sent.
 */
module SnapshotEffects {
  import opened Options
  import opened Snapshot
  import opened Text

  lemma LimitsIff(l: Limits)
    ensures ValidLimits(l) <==>
      && 0 < l.batchSize < 201 && 0 < l.maxProjects < 50_001 && 0 < l.maxServiceItems < 250_001
      && 0 < l.maxLineBytes <= l.maxBytes && l.maxBytes < 67_108_865 && l.maxLineBytes < 65_537
      && 0 < l.timeout < 30_000_000_001
  {
  }

  /** The end line of a stream that would stop with n projects. */
  function EndOf(u: Setup, snapshot: string, n: nat, hashed: string): Option<string> {
    u.codec.end(Summary(u.tenant, snapshot, n, u.codec.digest(hashed)))
  }

  /** Both lines are short enough, and together with what was sent they stay within the stream's budget. */
  predicate Room(u: Setup, bytes: nat, line: string, end: string) {
    !(|line| > u.limits.maxLineBytes) && !(|end| > u.limits.maxLineBytes)
    && !(bytes + |line| + |end| > u.limits.maxBytes)
  }

  predicate Asked(u: Setup, s: State, h: Header) {
    && !s.started && u.hasSink && u.tenant != "" && h.kind == "header" && h.schemaVersion == 1
    && h.tenant == u.tenant && Named(h.snapshot) && h.validTime
  }

  lemma BeginAnswers(u: Setup, s: State, h: Header, sinkOk: bool, after: bool)
    ensures var n := BeginNext(u, Stream(s, None), BeginCall(h, false, sinkOk, after));
      var line, end := u.codec.header(h), EndOf(u, h.snapshot, 0, s.hashed);
      var named := s.(snapshot := h.snapshot);
      if !ValidLimits(u.limits) then n == Stream(s, Some(BadLimits))
      else if !Asked(u, s, h) then n == Stream(s, Some(Protocol))
      else if line.None? || end.None? then n == Stream(named, Some(Encoding))
      else if !Room(u, s.bytes, line.value, end.value) then n == Stream(named, Some(Limit))
      else if !sinkOk then n == Stream(named, Some(Sink))
      else && n.err == (if after then Some(Cancelled) else None)
           && n.state == State(h.snapshot, true, s.total, s.items, s.bytes + |line.value|, s.lastID, s.hashed,
                               [line.value], s.projects)
  {
  }

  /** The project comes after the header, belongs to the stream, and follows the last one in byte order. */
  predicate Fitting(u: Setup, s: State, p: Projection) {
    s.started && OfStream(u.tenant, s.snapshot, p) && Less(s.lastID, p.id)
  }

  lemma ProjectAnswers(u: Setup, s: State, p: Projection, sinkOk: bool, after: bool)
    ensures var n := ProjectNext(u, Stream(s, None), ProjectCall(p, false, sinkOk, after));
      var line, end := u.codec.project(p), EndOf(u, s.snapshot, s.total + 1, s.hashed);
      if !Fitting(u, s, p) then n == Stream(s, Some(Protocol))
      else if s.total + 1 > u.limits.maxProjects || s.items + p.serviceItems > u.limits.maxServiceItems
      then n == Stream(s, Some(Limit))
      else if line.None? || end.None? then n == Stream(s, Some(Encoding))
      else if !Room(u, s.bytes, line.value, end.value) then n == Stream(s, Some(Limit))
      else if !sinkOk then n == Stream(s, Some(Sink))
      else && n.err == (if after then Some(Cancelled) else None)
           && n.state == State(s.snapshot, true, s.total + 1, s.items + p.serviceItems, s.bytes + |line.value|, p.id,
                               s.hashed + line.value, s.sent + [line.value], s.projects + [p])
  {
  }

  /** A call on a cancelled context fails before it looks at anything; a failed stream answers its first error. */
  lemma CancelledFirst(u: Setup, m: Stream, e: Event)
    requires m.err.Some? || e.cancelled
    ensures Next(u, m, e) == Stream(m.state, if m.err.Some? then m.err else Some(Cancelled))
  {
  }

  /** A new stream has sent nothing. */
  lemma FreshIsEmpty()
    ensures var m := Fresh();
      && m.err == None && !m.state.started && m.state.sent == [] && m.state.projects == []
      && m.state.bytes == 0 && m.state.total == 0 && m.state.items == 0 && m.state.lastID == "" && m.state.hashed == ""
  {
  }

  /** The six fields of the end record in their order, as one line of JSON; a string without quoting refuses it. */
  lemma EndLineReads(quote: string -> Option<string>, s: Summary)
    ensures EndLine(quote, s).Some? <==> quote(s.tenant).Some? && quote(s.snapshot).Some?
    ensures EndLine(quote, s).Some? ==>
      var head := "{\"type\":\"end\",\"schema_version\":1,\"tenant_id\":";
      var tail := ",\"checksum_sha256\":\"" + s.checksum + "\"}\n";
      EndLine(quote, s).value
      == head
         + (quote(s.tenant).value + ",\"snapshot_id\":" + quote(s.snapshot).value + ",\"total\":" + Decimal(s.total))
         + tail
  {
  }

  /** A run goes from stream to stream, one call after the other. */
  lemma {:induction false} RunIs(u: Setup, es: seq<Event>, streams: seq<Stream>)
    requires |streams| == |es| + 1 && forall i :: 0 <= i < |es| ==> streams[i + 1] == Next(u, streams[i], es[i])
    ensures Run(u, es, streams[0]) == streams[|es|]
  {
    if es != [] {
      RunIs(u, es[1..], streams[1..]);
    }
  }
}
