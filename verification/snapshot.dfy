/**
 * The project snapshot stream: a header line, project lines and an end line, with
 * exact byte accounting. Every line is accepted only while the end line, which is
 * not written yet, still fits behind it.
 */
module Snapshot {
  import opened Options
  import opened Text

  datatype Limits = Limits(
    batchSize: int, maxProjects: int, maxServiceItems: int, maxBytes: int, maxLineBytes: int, timeout: int)

  const DEFAULTS := Limits(200, 50000, 250000, 64 * 1024 * 1024, 64 * 1024, 30_000_000_000)

  const HEADER := "header"
  const PROJECT := "project"

  predicate ValidLimits(l: Limits) {
    && 1 <= l.batchSize <= DEFAULTS.batchSize && 1 <= l.maxProjects <= DEFAULTS.maxProjects
    && 1 <= l.maxServiceItems <= DEFAULTS.maxServiceItems
    && 1 <= l.maxBytes <= DEFAULTS.maxBytes && 1 <= l.maxLineBytes <= DEFAULTS.maxLineBytes
    && l.maxLineBytes <= l.maxBytes && 0 < l.timeout <= DEFAULTS.timeout
  }

  datatype Header = Header(kind: string, schemaVersion: int, tenant: string, snapshot: string, validTime: bool)

  /** The checked fields of a project projection; `content` stands for all the others. */
  datatype Projection = Projection(
    kind: string, tenant: string, snapshot: string, id: string, progress: int, serviceItems: int,
    validTimes: bool, content: string)

  datatype Error = Protocol | Limit | Encoding | Cancelled | Sink | BadLimits

  datatype Summary = Summary(tenant: string, snapshot: string, total: nat, checksum: string)

  /** The line encoders, which refuse invalid UTF-8, and the hex form of the checksum. */
  datatype Codec = Codec(
    header: Header -> Option<string>, project: Projection -> Option<string>, end: Summary -> Option<string>,
    digest: string -> string)

  /** The end line of `total` projects whose lines concatenate to `text`. */
  function EndFor(c: Codec, tenant: string, snapshot: string, total: nat, text: string): Option<string> {
    c.end(Summary(tenant, snapshot, total, c.digest(text)))
  }

  predicate SameLength(a: Option<string>, b: Option<string>) {
    a.Some? == b.Some? && (a.Some? ==> |a.value| == |b.value|)
  }

  /** Which digest an end line carries never changes whether it can be encoded, nor its length. */
  ghost predicate FixedLengthEnd(c: Codec) {
    forall tenant, snapshot, total, t, t' ::
      SameLength(EndFor(c, tenant, snapshot, total, t), EndFor(c, tenant, snapshot, total, t'))
  }

  /** The encoded end record, newline included; `quote` encodes one string. */
  function EndLine(quote: string -> Option<string>, s: Summary): Option<string> {
    var tenant, snapshot := quote(s.tenant), quote(s.snapshot);
    if tenant.None? || snapshot.None? then None
    else Some("{\"type\":\"end\",\"schema_version\":1,\"tenant_id\":" + tenant.value + ",\"snapshot_id\":" + snapshot.value
              + ",\"total\":" + Decimal(s.total) + ",\"checksum_sha256\":\"" + s.checksum + "\"}\n")
  }

  function Concat(lines: seq<string>): string {
    if lines == [] then "" else Concat(lines[..|lines| - 1]) + lines[|lines| - 1]
  }

  function TotalItems(ps: seq<Projection>): int {
    if ps == [] then 0 else TotalItems(ps[..|ps| - 1]) + ps[|ps| - 1].serviceItems
  }

  /** The real encoding has that property because every digest is 64 hex characters. */
  lemma EndLineHasFixedLength(c: Codec, quote: string -> Option<string>)
    requires forall s :: c.end(s) == EndLine(quote, s)
    requires forall text :: |c.digest(text)| == 64
    ensures FixedLengthEnd(c)
  {
    forall tenant, snapshot, total, t, t'
      ensures SameLength(EndFor(c, tenant, snapshot, total, t), EndFor(c, tenant, snapshot, total, t'))
    {
      assert EndFor(c, tenant, snapshot, total, t) == EndLine(quote, Summary(tenant, snapshot, total, c.digest(t)));
      assert EndFor(c, tenant, snapshot, total, t') == EndLine(quote, Summary(tenant, snapshot, total, c.digest(t')));
    }
  }

  ghost predicate StrictlyIncreasing(ps: seq<Projection>) {
    forall i, j :: 0 <= i < j < |ps| ==> Less(ps[i].id, ps[j].id)
  }

  lemma IncreasingAppend(ps: seq<Projection>, p: Projection)
    requires StrictlyIncreasing(ps) && (ps != [] ==> Less(ps[|ps| - 1].id, p.id))
    ensures StrictlyIncreasing(ps + [p])
  {
    forall i | 0 <= i < |ps|
      ensures Less(ps[i].id, p.id)
    {
      if i < |ps| - 1 {
        LessTransitive(ps[i].id, ps[|ps| - 1].id, p.id);
      }
    }
  }

  // ----- The accounting of a stream -----

  /** What is fixed when a stream is created. */
  datatype Setup = Setup(tenant: string, limits: Limits, hasSink: bool, codec: Codec)

  /** The counters, and behind them the lines the sink accepted and the projects they encode. */
  datatype State = State(
    snapshot: string, started: bool, total: nat, items: int, bytes: nat, lastID: string, hashed: string,
    sent: seq<string>, projects: seq<Projection>)

  /** The end line if the stream ended with `n` projects now. */
  function End(u: Setup, s: State, n: nat): Option<string> {
    EndFor(u.codec, u.tenant, s.snapshot, n, s.hashed)
  }

  /** A line fits when the end line of `n` projects still fits behind it. */
  predicate Fits(u: Setup, s: State, line: string, n: nat) {
    var end := End(u, s, n);
    && end.Some? && |line| <= u.limits.maxLineBytes && |end.value| <= u.limits.maxLineBytes
    && s.bytes + |line| + |end.value| <= u.limits.maxBytes
  }

  ghost predicate Counted(s: State) {
    && s.bytes == |Concat(s.sent)| && s.total == |s.projects| && s.items == TotalItems(s.projects)
    && StrictlyIncreasing(s.projects)
    && s.lastID == if s.projects == [] then "" else s.projects[|s.projects| - 1].id
  }

  ghost predicate Encoded(u: Setup, s: State) {
    && |s.sent| == |s.projects| + 1 && s.hashed == Concat(s.sent[1..])
    && (forall i :: 0 <= i < |s.sent| ==> |s.sent[i]| <= u.limits.maxLineBytes)
    && (forall i :: 0 <= i < |s.projects| ==> u.codec.project(s.projects[i]) == Some(s.sent[i + 1]))
  }

  /** The reserved end line fits both limits behind everything sent. */
  ghost predicate Reserved(u: Setup, s: State) {
    var end := End(u, s, s.total);
    && s.total <= u.limits.maxProjects && s.items <= u.limits.maxServiceItems
    && end.Some? && |end.value| <= u.limits.maxLineBytes && s.bytes + |end.value| <= u.limits.maxBytes
  }

  ghost predicate Good(u: Setup, s: State) {
    && Counted(s)
    && (if s.started then Encoded(u, s) && Reserved(u, s) else s.sent == [] && s.projects == [] && s.hashed == "")
  }

  predicate MayBegin(u: Setup, s: State, h: Header) {
    && !s.started && u.hasSink && u.tenant != "" && h.kind == HEADER && h.schemaVersion == 1
    && h.tenant == u.tenant && !Blank(h.snapshot) && h.validTime
  }

  predicate MayProject(u: Setup, s: State, p: Projection) {
    && s.started && p.kind == PROJECT && p.tenant == u.tenant && p.snapshot == s.snapshot && !Blank(p.id)
    && Less(s.lastID, p.id) && 0 <= p.progress <= 100 && p.serviceItems >= 0 && p.validTimes
  }

  function AfterBegin(s: State, h: Header, line: string): State {
    s.(snapshot := h.snapshot, started := true, bytes := s.bytes + |line|, sent := [line])
  }

  function AfterProject(s: State, p: Projection, line: string): State {
    s.(total := s.total + 1, items := s.items + p.serviceItems, bytes := s.bytes + |line|, lastID := p.id,
       hashed := s.hashed + line, sent := s.sent + [line], projects := s.projects + [p])
  }

  /** The header is sent iff every check passes. */
  predicate SendsHeader(u: Setup, s: State, h: Header) {
    && ValidLimits(u.limits) && MayBegin(u, s, h) && u.codec.header(h).Some?
    && Fits(u, s.(snapshot := h.snapshot), u.codec.header(h).value, 0)
  }

  predicate SendsProject(u: Setup, s: State, p: Projection) {
    && MayProject(u, s, p) && s.total < u.limits.maxProjects && p.serviceItems <= u.limits.maxServiceItems - s.items
    && u.codec.project(p).Some? && Fits(u, s, u.codec.project(p).value, s.total + 1)
  }

  lemma BeginKeepsGood(u: Setup, s: State, h: Header)
    requires Good(u, s) && SendsHeader(u, s, h)
    ensures Good(u, AfterBegin(s, h, u.codec.header(h).value))
  {
    var line := u.codec.header(h).value;
    assert [line][..0] == [] && [line][1..] == [];
    assert Concat([line]) == Concat([]) + line == line;
  }

  lemma ProjectKeepsCounted(s: State, p: Projection, line: string)
    requires Counted(s) && Less(s.lastID, p.id)
    ensures Counted(AfterProject(s, p, line))
  {
    IncreasingAppend(s.projects, p);
    assert (s.projects + [p])[..|s.projects|] == s.projects;
    assert (s.sent + [line])[..|s.sent|] == s.sent;
  }

  lemma ProjectKeepsEncoded(u: Setup, s: State, p: Projection, line: string)
    requires Encoded(u, s) && u.codec.project(p) == Some(line) && |line| <= u.limits.maxLineBytes
    ensures Encoded(u, AfterProject(s, p, line))
  {
    assert (s.sent + [line])[1..] == s.sent[1..] + [line];
    assert (s.sent[1..] + [line])[..|s.sent| - 1] == s.sent[1..];
  }

  /** Sending a project keeps everything, the room for the next end line included. */
  lemma ProjectKeepsGood(u: Setup, s: State, p: Projection)
    requires FixedLengthEnd(u.codec) && Good(u, s) && SendsProject(u, s, p)
    ensures Good(u, AfterProject(s, p, u.codec.project(p).value))
  {
    var line := u.codec.project(p).value;
    ProjectKeepsCounted(s, p, line);
    ProjectKeepsEncoded(u, s, p, line);
    assert SameLength(End(u, s, s.total + 1), End(u, AfterProject(s, p, line), s.total + 1));
  }

  // ----- The stream as a machine over its calls -----

  /** The counters with the sticky error. */
  datatype Stream = Stream(state: State, err: Option<Error>)

  datatype Event =
    | BeginCall(h: Header, cancelled: bool, sinkOk: bool, after: bool)
    | ProjectCall(p: Projection, cancelled: bool, sinkOk: bool, after: bool)

  function Sticky(err: Option<Error>, e: Error): Option<Error> {
    if err.Some? then err else Some(e)
  }

  function EncodingOrLimit(u: Setup, s: State, line: Option<string>, n: nat): Error {
    if line.None? || End(u, s, n).None? then Encoding else Limit
  }

  /** `after` is a cancellation noticed only once the header was sent. */
  function BeginNext(u: Setup, m: Stream, e: Event): Stream
    requires e.BeginCall?
  {
    if m.err.Some? then m
    else if e.cancelled then m.(err := Some(Cancelled))
    else if !ValidLimits(u.limits) then m.(err := Some(BadLimits))
    else if !MayBegin(u, m.state, e.h) then m.(err := Some(Protocol))
    else
      var s := m.state.(snapshot := e.h.snapshot);
      if !SendsHeader(u, m.state, e.h) then Stream(s, Some(EncodingOrLimit(u, s, u.codec.header(e.h), 0)))
      else if !e.sinkOk then Stream(s, Some(Sink))
      else Stream(AfterBegin(m.state, e.h, u.codec.header(e.h).value), if e.after then Some(Cancelled) else None)
  }

  /** The verdict on a project before it is sent. */
  function ProjectCheck(u: Setup, s: State, p: Projection): Option<Error> {
    if !MayProject(u, s, p) then Some(Protocol)
    else if s.total >= u.limits.maxProjects || p.serviceItems > u.limits.maxServiceItems - s.items then Some(Limit)
    else if SendsProject(u, s, p) then None
    else Some(EncodingOrLimit(u, s, u.codec.project(p), s.total + 1))
  }

  function ProjectNext(u: Setup, m: Stream, e: Event): Stream
    requires e.ProjectCall?
  {
    if m.err.Some? then m
    else if e.cancelled then m.(err := Some(Cancelled))
    else if ProjectCheck(u, m.state, e.p).Some? then m.(err := ProjectCheck(u, m.state, e.p))
    else if !e.sinkOk then m.(err := Some(Sink))
    else Stream(AfterProject(m.state, e.p, u.codec.project(e.p).value), if e.after then Some(Cancelled) else None)
  }

  function Next(u: Setup, m: Stream, e: Event): Stream {
    if e.BeginCall? then BeginNext(u, m, e) else ProjectNext(u, m, e)
  }

  function Run(u: Setup, es: seq<Event>, m: Stream): Stream {
    if es == [] then m else Run(u, es[1..], Next(u, m, es[0]))
  }

  function Fresh(): Stream {
    Stream(State("", false, 0, 0, 0, "", "", [], []), None)
  }

  lemma NextKeepsGood(u: Setup, m: Stream, e: Event)
    requires FixedLengthEnd(u.codec) && Good(u, m.state)
    ensures Good(u, Next(u, m, e).state)
    ensures m.err.Some? ==> Next(u, m, e) == m
  {
    if Next(u, m, e) != m {
      match e {
        case BeginCall(h, _, sinkOk, _) =>
          if SendsHeader(u, m.state, h) && sinkOk {
            BeginKeepsGood(u, m.state, h);
          }
        case ProjectCall(p, _, sinkOk, _) =>
          if SendsProject(u, m.state, p) && sinkOk {
            ProjectKeepsGood(u, m.state, p);
          }
      }
    }
  }

  /** The budget holds after any calls, and the first error freezes the stream for good. */
  lemma {:induction false} RunKeepsGood(u: Setup, es: seq<Event>, m: Stream)
    requires FixedLengthEnd(u.codec) && Good(u, m.state)
    ensures Good(u, Run(u, es, m).state)
    ensures m.err.Some? ==> Run(u, es, m) == m
  {
    if es != [] {
      NextKeepsGood(u, m, es[0]);
      RunKeepsGood(u, es[1..], Next(u, m, es[0]));
    }
  }

  // ----- Whose projects are sent -----

  /** A text with something in it besides spaces. */
  predicate Named(id: string) {
    exists c :: c in id && !IsSpace(c)
  }

  /** A project of this tenant and this snapshot, with sane numbers and times. */
  predicate OfStream(tenant: string, snapshot: string, p: Projection) {
    && p.kind == "project" && p.tenant == tenant && p.snapshot == snapshot && Named(p.id)
    && 0 <= p.progress <= 100 && 0 <= p.serviceItems && p.validTimes
  }

  /** The first line is a header of this tenant, and gave the snapshot its name. */
  ghost predicate Headed(u: Setup, s: State) {
    s.sent != [] && exists h ::
      u.codec.header(h) == Some(s.sent[0]) && h.kind == "header" && h.schemaVersion == 1
      && h.tenant == u.tenant && h.tenant != "" && h.snapshot == s.snapshot && Named(h.snapshot) && h.validTime
  }

  ghost predicate Belongs(u: Setup, s: State) {
    && (forall i :: 0 <= i < |s.projects| ==> OfStream(u.tenant, s.snapshot, s.projects[i]))
    && (if s.started then Headed(u, s) else s.projects == [])
  }

  lemma BeginKeepsBelongs(u: Setup, m: Stream, h: Header, cancelled: bool, sinkOk: bool, after: bool)
    requires Belongs(u, m.state)
    ensures Belongs(u, BeginNext(u, m, BeginCall(h, cancelled, sinkOk, after)).state)
  {
    var n := BeginNext(u, m, BeginCall(h, cancelled, sinkOk, after));
    if n.state.started && !m.state.started { assert u.codec.header(h) == Some(n.state.sent[0]); }
  }

  lemma ProjectKeepsBelongs(u: Setup, m: Stream, p: Projection, cancelled: bool, sinkOk: bool, after: bool)
    requires Belongs(u, m.state) && (m.state.started ==> m.state.sent != [])
    ensures Belongs(u, ProjectNext(u, m, ProjectCall(p, cancelled, sinkOk, after)).state)
  {
    var n := ProjectNext(u, m, ProjectCall(p, cancelled, sinkOk, after));
    if n.state.started { assert n.state.sent[0] == m.state.sent[0]; }
  }

  lemma {:induction false} RunKeepsBelongs(u: Setup, es: seq<Event>, m: Stream)
    requires Belongs(u, m.state)
    ensures Belongs(u, Run(u, es, m).state)
  {
    if es != [] {
      match es[0] {
        case BeginCall(h, cancelled, sinkOk, after) => BeginKeepsBelongs(u, m, h, cancelled, sinkOk, after);
        case ProjectCall(p, cancelled, sinkOk, after) => ProjectKeepsBelongs(u, m, p, cancelled, sinkOk, after);
      }
      RunKeepsBelongs(u, es[1..], Next(u, m, es[0]));
    }
  }

  /**
   * Whatever calls were made, once the header was sent the end line of the projects sent so far
   * still fits: the whole byte stream, end line included, respects every limit, and the checksum
   * in that line is over exactly the concatenated project lines. The header is the stream's own tenant's,
   * and every project sent is of that tenant and of the header's snapshot.
   */
  lemma SummaryAlwaysFits(u: Setup, es: seq<Event>)
    requires FixedLengthEnd(u.codec) && Run(u, es, Fresh()).state.started
    ensures var s := Run(u, es, Fresh()).state;
            && |s.sent| == |s.projects| + 1
            && (forall i :: 0 <= i < |s.projects| ==> u.codec.project(s.projects[i]) == Some(s.sent[i + 1]))
            && var end := u.codec.end(Summary(u.tenant, s.snapshot, |s.projects|, u.codec.digest(Concat(s.sent[1..]))));
            && end.Some? && |end.value| <= u.limits.maxLineBytes
            && |Concat(s.sent + [end.value])| <= u.limits.maxBytes
            && |s.projects| <= u.limits.maxProjects && TotalItems(s.projects) <= u.limits.maxServiceItems
            && StrictlyIncreasing(s.projects)
            && Headed(u, s) && (forall i :: 0 <= i < |s.projects| ==> OfStream(u.tenant, s.snapshot, s.projects[i]))
  {
    assert Concat([]) == "";
    RunKeepsGood(u, es, Fresh());
    RunKeepsBelongs(u, es, Fresh());
    var s := Run(u, es, Fresh()).state;
    var end := End(u, s, s.total).value;
    assert (s.sent + [end])[..|s.sent|] == s.sent;
  }

  // ----- The stream object -----

  class ProjectSnapshotStream {
    const setup: Setup
    var snapshot: string
    var started: bool
    var total: nat
    var items: int
    var bytes: nat
    var lastID: string
    var hashed: string
    var err: Option<Error>
    ghost var sent: seq<string>
    ghost var projects: seq<Projection>

    ghost function View(): State
      reads `snapshot, `started, `total, `items, `bytes, `lastID, `hashed, `sent, `projects
    {
      State(snapshot, started, total, items, bytes, lastID, hashed, sent, projects)
    }

    ghost function Machine(): Stream
      reads this
    {
      Stream(View(), err)
    }

    constructor (setup: Setup)
      ensures this.setup == setup && Machine() == Fresh()
    {
      this.setup := setup;
      snapshot, started, total, items, bytes, lastID, hashed, err := "", false, 0, 0, 0, "", "", None;
      sent, projects := [], [];
    }

    method Fail(e: Error) returns (r: Option<Error>)
      modifies this`err
      ensures r == err == Sticky(old(err), e)
    {
      if err.None? {
        err := Some(e);
      }
      r := err;
    }

    /** The sticky error, or a cancelled context, which becomes sticky. */
    method Check(cancelled: bool) returns (r: Option<Error>)
      modifies this`err
      ensures r == err == if cancelled then Sticky(old(err), Cancelled) else old(err)
    {
      if err.Some? {
        return err;
      }
      r := None;
      if cancelled {
        r := Fail(Cancelled);
      }
    }

    method Reserve(line: string, n: nat) returns (r: Option<Error>)
      ensures r == if Fits(setup, View(), line, n) then None else Some(EncodingOrLimit(setup, View(), Some(line), n))
    {
      var end := EndFor(setup.codec, setup.tenant, snapshot, n, hashed);
      if end.None? {
        return Some(Encoding);
      }
      if |line| > setup.limits.maxLineBytes || |end.value| > setup.limits.maxLineBytes
         || bytes + |line| + |end.value| > setup.limits.maxBytes {
        return Some(Limit);
      }
      r := None;
    }

    method Begin(h: Header, cancelled: bool, sinkOk: bool, after: bool) returns (r: Option<Error>)
      modifies this
      ensures r == err && Machine() == BeginNext(setup, old(Machine()), BeginCall(h, cancelled, sinkOk, after))
    {
      r := Check(cancelled);
      if r.Some? {
        return;
      }
      if !ValidLimits(setup.limits) {
        r := Fail(BadLimits);
        return;
      }
      if started || !setup.hasSink || setup.tenant == "" || h.kind != HEADER || h.schemaVersion != 1
         || h.tenant != setup.tenant || Blank(h.snapshot) || !h.validTime {
        r := Fail(Protocol);
        return;
      }
      snapshot := h.snapshot;
      var line := setup.codec.header(h);
      if line.None? {
        r := Fail(Encoding);
        return;
      }
      r := Reserve(line.value, 0);
      if r.Some? {
        r := Fail(r.value);
        return;
      }
      if !sinkOk {
        r := Fail(Sink);
        return;
      }
      started := true;
      bytes := bytes + |line.value|;
      sent := [line.value];
      r := Check(after);
    }

    /** The checks of Project in their order, up to the sink. */
    method CheckProject(p: Projection) returns (r: Option<Error>)
      ensures r == ProjectCheck(setup, View(), p)
    {
      if !started || p.kind != PROJECT || p.tenant != setup.tenant || p.snapshot != snapshot || Blank(p.id)
         || !Less(lastID, p.id) || p.progress < 0 || p.progress > 100 || p.serviceItems < 0 || !p.validTimes {
        return Some(Protocol);
      }
      if total >= setup.limits.maxProjects || p.serviceItems > setup.limits.maxServiceItems - items {
        return Some(Limit);
      }
      var line := setup.codec.project(p);
      if line.None? {
        return Some(Encoding);
      }
      r := Reserve(line.value, total + 1);
    }

    /** The counters after a line was sent. */
    method Count(p: Projection, line: string)
      modifies `total, `items, `bytes, `lastID, `hashed, `sent, `projects
      ensures View() == AfterProject(old(View()), p, line)
    {
      hashed := hashed + line;
      total := total + 1;
      items := items + p.serviceItems;
      bytes := bytes + |line|;
      lastID := p.id;
      sent := sent + [line];
      projects := projects + [p];
    }

    method Project(p: Projection, cancelled: bool, sinkOk: bool, after: bool) returns (r: Option<Error>)
      modifies this
      ensures r == err && Machine() == ProjectNext(setup, old(Machine()), ProjectCall(p, cancelled, sinkOk, after))
    {
      r := Check(cancelled);
      if r.Some? {
        return;
      }
      r := CheckProject(p);
      if r.None? && !sinkOk {
        r := Some(Sink);
      }
      if r.Some? {
        r := Fail(r.value);
        return;
      }
      Count(p, setup.codec.project(p).value);
      r := Check(after);
    }

    /** The summary of everything sent; an unstarted stream fails for good. */
    method Finish(cancelled: bool) returns (s: Option<Summary>, r: Option<Error>)
      modifies this`err
      ensures r == err == (if cancelled || old(err).Some? then Sticky(old(err), Cancelled)
                           else if !started then Some(Protocol) else None)
      ensures s == if r == None then Some(Summary(setup.tenant, snapshot, total, setup.codec.digest(hashed))) else None
    {
      s := None;
      r := Check(cancelled);
      if r.Some? {
        return;
      }
      if !started {
        r := Fail(Protocol);
        return;
      }
      s := Some(Summary(setup.tenant, snapshot, total, setup.codec.digest(hashed)));
    }
  }
}
