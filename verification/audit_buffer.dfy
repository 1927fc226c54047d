/**
 * Holding a response back until its audit record is written (internal/httpapi/audit_buffer.go), against
 * the writer it stands in for and inside the middleware that uses it. A char stands for one body byte.
 */
module AuditBuffers {
  import opened Options

  const LIMIT := 64 * 1024

  type Headers = map<string, seq<string>>

  // ----- The real writer -----

  /** What net/http sent as the head of a response. */
  datatype Head = Head(status: int, headers: Headers)

  /** A gin response writer: a header map still being edited, and what reached the client. */
  datatype Wire = Wire(headers: Headers, status: int, size: int, sent: Option<Head>, body: string)

  function SetStatus(w: Wire, code: int): Wire {
    if code > 0 && w.status != code && w.size == -1 then w.(status := code) else w
  }

  function Commit(w: Wire): Wire {
    if w.size == -1 then w.(size := 0, sent := Some(Head(w.status, w.headers))) else w
  }

  function Put(w: Wire, bytes: string): Wire {
    var c := Commit(w);
    c.(body := c.body + bytes, size := c.size + |bytes|)
  }

  /** A writer nothing was written to; headers set by earlier handlers may be there already. */
  predicate Untouched(w: Wire) {
    w.size == -1 && w.sent == None && w.body == ""
  }

  // ----- What a handler does with its writer -----

  datatype Event =
    | SetHeader(key: string, value: string)
    | AddHeader(key: string, value: string)
    | DeleteHeader(key: string)
    | WriteHeader(code: int)
    | WriteHeaderNow
    | Write(bytes: string)
    | Flush

  function Edit(h: Headers, e: Event): Headers {
    match e
    case SetHeader(key, value) => h[key := [value]]
    case AddHeader(key, value) => h[key := (if key in h then h[key] else []) + [value]]
    case DeleteHeader(key) => h - {key}
    case _ => h
  }

  function Direct(w: Wire, e: Event): Wire {
    match e
    case WriteHeader(code) => SetStatus(w, code)
    case WriteHeaderNow => Commit(w)
    case Write(bytes) => Put(w, bytes)
    case Flush => Commit(w)
    case _ => w.(headers := Edit(w.headers, e))
  }

  function RunDirect(w: Wire, events: seq<Event>): Wire {
    if events == [] then w
    else Direct(RunDirect(w, events[..|events| - 1]), events[|events| - 1])
  }

  function Bytes(events: seq<Event>): string {
    if events == [] then ""
    else
      var last := events[|events| - 1];
      Bytes(events[..|events| - 1]) + if last.Write? then last.bytes else ""
  }

  // ----- The buffering writer -----

  datatype Buffer = Buffer(orig: Wire, headers: Headers, status: int, size: int, body: string, degraded: bool)

  function NewBuffer(orig: Wire): Buffer {
    Buffer(orig, map[], 200, -1, "", false)
  }

  function Mark(b: Buffer): Buffer {
    if b.size == -1 then b.(size := 0) else b
  }

  /** Each key of the second map replaces the first map's values; a key without values removes them. */
  function Override(base: Headers, over: Headers): Headers {
    map k | k in base.Keys + over.Keys && (k in over ==> over[k] != []) :: if k in over then over[k] else base[k]
  }

  function Replace(h: Headers, key: string, values: seq<string>): Headers {
    if values == [] then h - {key} else h[key := values]
  }

  lemma OverrideNothing(base: Headers, over: Headers)
    ensures Override(base, over - over.Keys) == base
  {
    assert over - over.Keys == map[];
  }

  lemma OverrideStep(base: Headers, over: Headers, left: set<string>, key: string)
    requires key in left && left <= over.Keys
    ensures Replace(Override(base, over - left), key, over[key]) == Override(base, over - (left - {key}))
  {
  }

  function CommitTo(b: Buffer, dst: Wire): Wire {
    var w := SetStatus(dst.(headers := Override(dst.headers, b.headers)), b.status);
    if |b.body| > 0 then Put(w, b.body) else Commit(w)
  }

  function Degrade(b: Buffer): Buffer {
    Mark(b).(degraded := true, orig := CommitTo(b, b.orig))
  }

  function BufferWrite(b: Buffer, bytes: string): Buffer {
    var m := Mark(b);
    if m.degraded then
      m.(orig := Put(m.orig, bytes), size := m.size + |bytes|)
    else
      var n := m.(body := m.body + bytes, size := m.size + |bytes|);
      if |n.body| > LIMIT then Degrade(n) else n
  }

  function Buffered(b: Buffer, e: Event): Buffer {
    match e
    case WriteHeader(code) => if code > 0 && b.status != code && b.size == -1 then b.(status := code) else b
    case WriteHeaderNow => Mark(b)
    case Write(bytes) => BufferWrite(b, bytes)
    case Flush => if b.degraded then b.(orig := Commit(b.orig)) else Mark(b)
    case _ => b.(headers := Edit(b.headers, e))
  }

  function RunBuffered(b: Buffer, events: seq<Event>): Buffer {
    if events == [] then b
    else Buffered(RunBuffered(b, events[..|events| - 1]), events[|events| - 1])
  }

  function FlushTo(b: Buffer): Wire {
    if b.degraded then b.orig else CommitTo(b, b.orig)
  }

  // ----- The writers as objects -----

  class GinWriter {
    var headers: Headers
    var status: int
    var size: int
    var sent: Option<Head>
    var body: string

    function View(): Wire
      reads this
    {
      Wire(headers, status, size, sent, body)
    }

    constructor (headers: Headers)
      ensures View() == Wire(headers, 200, -1, None, "")
    {
      this.headers, status, size, sent, body := headers, 200, -1, None, "";
    }

    method Apply(e: Event)
      modifies this
      ensures View() == Direct(old(View()), e)
    {
      match e
      case WriteHeader(code) =>
        if code > 0 && status != code && size == -1 { status := code; }
      case WriteHeaderNow => CommitHead();
      case Flush => CommitHead();
      case Write(bytes) =>
        CommitHead();
        body := body + bytes;
        size := size + |bytes|;
      case _ => headers := Edit(headers, e);
    }

    method CommitHead()
      modifies this
      ensures View() == Commit(old(View()))
    {
      if size == -1 {
        size := 0;
        sent := Some(Head(status, headers));
      }
    }
  }

  class AuditBuffer {
    const orig: GinWriter
    var headers: Headers
    var status: int
    var size: int
    var body: string
    var degraded: bool

    function View(): Buffer
      reads this, orig
    {
      Buffer(orig.View(), headers, status, size, body, degraded)
    }

    constructor (orig: GinWriter)
      ensures this.orig == orig && View() == NewBuffer(orig.View())
    {
      this.orig := orig;
      headers, status, size, body, degraded := map[], 200, -1, "", false;
    }

    method MarkWritten()
      modifies this`size
      ensures View() == Mark(old(View()))
    {
      if size == -1 { size := 0; }
    }

    method CopyValues(key: string, values: seq<string>)
      modifies orig
      ensures orig.View() == old(orig.View()).(headers := Replace(old(orig.headers), key, values))
    {
      orig.Apply(DeleteHeader(key));
      var i := 0;
      while i < |values|
        invariant i <= |values|
        invariant orig.View() == old(orig.View()).(headers := Replace(old(orig.headers), key, values[..i]))
      {
        assert values[..i + 1] == values[..i] + [values[i]];
        orig.Apply(AddHeader(key, values[i]));
        i := i + 1;
      }
      assert values[..|values|] == values;
    }

    /** Copies the buffered headers over, one key at a time in no particular order. */
    method CopyHeaders()
      modifies orig
      ensures orig.View() == old(orig.View()).(headers := Override(old(orig.headers), headers))
    {
      var left := headers.Keys;
      OverrideNothing(orig.headers, headers);
      while left != {}
        invariant left <= headers.Keys
        invariant orig.View() == old(orig.View()).(headers := Override(old(orig.headers), headers - left))
        decreases |left|
      {
        var key :| key in left;
        CopyValues(key, headers[key]);
        OverrideStep(old(orig.headers), headers, left, key);
        left := left - {key};
      }
      assert headers - left == headers;
    }

    method CommitToOriginal()
      modifies this, orig
      ensures View() == Mark(old(View())).(orig := CommitTo(old(View()), old(orig.View())))
    {
      MarkWritten();
      CopyHeaders();
      orig.Apply(WriteHeader(status));
      if |body| > 0 {
        orig.Apply(Write(body));
      } else {
        orig.Apply(WriteHeaderNow);
      }
    }

    method WriteBytes(bytes: string)
      modifies this, orig
      ensures View() == BufferWrite(old(View()), bytes)
    {
      MarkWritten();
      if degraded {
        orig.Apply(Write(bytes));
        size := size + |bytes|;
        return;
      }
      body := body + bytes;
      size := size + |bytes|;
      if |body| > LIMIT {
        degraded := true;
        CommitToOriginal();
      }
    }

    method Apply(e: Event)
      modifies this, orig
      ensures View() == Buffered(old(View()), e)
    {
      match e
      case WriteHeader(code) =>
        if code > 0 && status != code && size == -1 { status := code; }
      case WriteHeaderNow => MarkWritten();
      case Flush =>
        if degraded { orig.Apply(Flush); } else { MarkWritten(); }
      case Write(bytes) => WriteBytes(bytes);
      case _ => headers := Edit(headers, e);
    }

    method FlushToOriginal()
      modifies this, orig
      ensures orig.View() == FlushTo(old(View()))
    {
      assert View().orig == orig.View();
      if !degraded { CommitToOriginal(); }
      assert View().orig == orig.View();
    }
  }

  // ----- The buffer against the writer it stands in for -----

  /** The buffer after the same calls: in step with the direct writer, and silent until it degrades. */
  ghost predicate InStep(start: Wire, d: Wire, b: Buffer) {
    && b.status == d.status > 0 && b.size == d.size
    && d.sent.Some? == (d.size != -1) && d.size == (if d.sent.Some? then |d.body| else -1)
    && (d.sent.Some? ==> d.sent.value.status == d.status)
    && (d.sent.None? ==> d.body == "")
    && (b.degraded <==> |d.body| > LIMIT)
    && (!b.degraded ==> b.orig == start && b.body == d.body)
    && (b.degraded ==> SameAnswer(b.orig, d))
  }

  /** What a client can tell apart: the status line it got, the bytes, and the writer's own counters. */
  predicate SameAnswer(a: Wire, d: Wire) {
    && a.status == d.status && a.size == d.size && a.body == d.body
    && a.sent.Some? && d.sent.Some? && a.sent.value.status == d.sent.value.status
  }

  lemma StepKeepsInStep(start: Wire, d: Wire, b: Buffer, e: Event)
    requires Untouched(start) && InStep(start, d, b)
    ensures InStep(start, Direct(d, e), Buffered(b, e))
  {
  }

  lemma FlushInStep(start: Wire, d: Wire, b: Buffer)
    requires Untouched(start) && InStep(start, d, b)
    ensures SameAnswer(FlushTo(b), Commit(d))
  {
  }

  lemma {:induction false} BufferStaysInStep(start: Wire, events: seq<Event>)
    requires Untouched(start) && start.status == 200
    ensures InStep(start, RunDirect(start, events), RunBuffered(NewBuffer(start), events))
  {
    if events != [] {
      var front := events[..|events| - 1];
      BufferStaysInStep(start, front);
      StepKeepsInStep(start, RunDirect(start, front), RunBuffered(NewBuffer(start), front), events[|events| - 1]);
    }
  }

  lemma {:induction false} DirectBodyIsBytes(w: Wire, events: seq<Event>)
    ensures RunDirect(w, events).body == w.body + Bytes(events)
  {
    if events != [] {
      DirectBodyIsBytes(w, events[..|events| - 1]);
    }
  }

  /** The bytes are all held, or all sent. */
  ghost predicate Carries(start: Wire, b: Buffer, bytes: string) {
    && (b.degraded <==> |bytes| > LIMIT)
    && (if b.degraded then b.orig.body == bytes && b.orig.size >= 0 else b.orig == start && b.body == bytes)
  }

  function BytesOf(e: Event): string {
    if e.Write? then e.bytes else ""
  }

  lemma WriteCarries(start: Wire, b: Buffer, bytes: string, more: string)
    requires Untouched(start) && Carries(start, b, bytes)
    ensures Carries(start, BufferWrite(b, more), bytes + more)
  {
    if !b.degraded {
      assert start.body + (bytes + more) == bytes + more;
    }
  }

  /** One call adds its bytes to what is held, or to what is sent. */
  lemma CallCarries(start: Wire, b: Buffer, bytes: string, e: Event)
    requires Untouched(start) && Carries(start, b, bytes)
    ensures Carries(start, Buffered(b, e), bytes + BytesOf(e))
  {
    if e.Write? {
      WriteCarries(start, b, bytes, e.bytes);
    } else {
      assert bytes + "" == bytes;
    }
  }

  lemma {:induction false} RunCarries(start: Wire, events: seq<Event>)
    requires Untouched(start)
    ensures Carries(start, RunBuffered(NewBuffer(start), events), Bytes(events))
  {
    if events != [] {
      var front, last := events[..|events| - 1], events[|events| - 1];
      RunCarries(start, front);
      CallCarries(start, RunBuffered(NewBuffer(start), front), Bytes(front), last);
      assert Bytes(events) == Bytes(front) + BytesOf(last);
    }
  }

  /** Every byte is on the real writer or still held, in order; none is on it until the limit is passed. */
  lemma {:induction false} NothingLeaksBelowTheLimit(start: Wire, events: seq<Event>)
    requires Untouched(start)
    ensures var b := RunBuffered(NewBuffer(start), events);
      && (b.degraded <==> |Bytes(events)| > LIMIT)
      && (b.orig == start <==> |Bytes(events)| <= LIMIT)
      && b.orig.body + (if b.degraded then "" else b.body) == Bytes(events)
      && (b.degraded ==> b.orig.size >= 0)
  {
    RunCarries(start, events);
  }

  /** Once a head is sent no call changes it. */
  lemma HeadIsSentOnce(b: Buffer, e: Event)
    requires b.orig.sent.Some? && b.orig.size != -1 && b.degraded
    ensures Buffered(b, e).orig.sent == b.orig.sent && b.orig.body <= Buffered(b, e).orig.body
    ensures Buffered(b, e).degraded
  {
  }

  /** Buffering and then flushing gives the client the status and bytes of writing directly. */
  lemma FlushMatchesDirect(start: Wire, events: seq<Event>)
    requires Untouched(start) && start.status == 200
    ensures SameAnswer(FlushTo(RunBuffered(NewBuffer(start), events)), Commit(RunDirect(start, events)))
  {
    BufferStaysInStep(start, events);
    FlushInStep(start, RunDirect(start, events), RunBuffered(NewBuffer(start), events));
  }

  ghost predicate FlushMatches(start: Wire, events: seq<Event>) {
    SameAnswer(FlushTo(RunBuffered(NewBuffer(start), events)), Commit(RunDirect(start, events)))
  }

  /** The flush overwrites a status set on the real writer earlier, so a fresh 200 is what equivalence needs. */
  lemma StatusMatchesIff(start: Wire)
    requires Untouched(start)
    ensures (forall events :: FlushMatches(start, events)) <==> start.status == 200
  {
    if start.status == 200 {
      forall events ensures FlushMatches(start, events) { FlushMatchesDirect(start, events); }
    } else {
      var none: seq<Event> := [];
      assert FlushTo(NewBuffer(start)).status == 200;
      assert !FlushMatches(start, none);
    }
  }

  // ----- Headers -----

  function Edits(h: Headers, events: seq<Event>): Headers {
    if events == [] then h
    else Edit(Edits(h, events[..|events| - 1]), events[|events| - 1])
  }

  lemma CallEdits(w: Wire, b: Buffer, e: Event)
    ensures Direct(w, e).headers == Edit(w.headers, e) && Buffered(b, e).headers == Edit(b.headers, e)
  {
  }

  lemma {:induction false} HeaderMaps(start: Wire, events: seq<Event>)
    ensures RunDirect(start, events).headers == Edits(start.headers, events)
    ensures RunBuffered(NewBuffer(start), events).headers == Edits(map[], events)
  {
    if events != [] {
      var front := events[..|events| - 1];
      HeaderMaps(start, front);
      CallEdits(RunDirect(start, front), RunBuffered(NewBuffer(start), front), events[|events| - 1]);
    }
  }

  ghost predicate HasValues(h: Headers) {
    forall k :: k in h ==> h[k] != []
  }

  /** What became of one key's earlier values: still as they were, replaced, only added to, or deleted. */
  datatype Fate = Kept | Replaced | AddedTo | Deleted

  function FateAfter(f: Fate, k: string, e: Event): Fate {
    match e
    case SetHeader(key, _) => if key == k then Replaced else f
    case AddHeader(key, _) =>
      if key != k then f
      else if f == Kept then AddedTo
      else if f == Deleted then Replaced
      else f
    case DeleteHeader(key) => if key == k then Deleted else f
    case _ => f
  }

  function FateOf(k: string, events: seq<Event>): Fate {
    if events == [] then Kept else FateAfter(FateOf(k, events[..|events| - 1]), k, events[|events| - 1])
  }

  /** One key's values in a map that may lack it. */
  function Values(h: Headers, k: string): seq<string> {
    if k in h then h[k] else []
  }

  /** How a key's values in the buffer and on the direct writer hang together, by its fate. */
  ghost predicate KeyFits(base: Headers, direct: Headers, over: Headers, k: string, f: Fate) {
    match f
    case Kept => k !in over && Values(direct, k) == Values(base, k)
    case Replaced => k in over && k in direct && over[k] == direct[k]
    case AddedTo => k in over && k in direct && direct[k] == Values(base, k) + over[k]
    case Deleted => k !in over && k !in direct
  }

  lemma EditFits(base: Headers, direct: Headers, over: Headers, k: string, f: Fate, e: Event)
    requires HasValues(base) && HasValues(direct) && HasValues(over) && KeyFits(base, direct, over, k, f)
    ensures HasValues(Edit(direct, e)) && HasValues(Edit(over, e))
    ensures KeyFits(base, Edit(direct, e), Edit(over, e), k, FateAfter(f, k, e))
  {
    if e.AddHeader? && e.key == k && f == AddedTo {
      assert Values(base, k) + (over[k] + [e.value]) == (Values(base, k) + over[k]) + [e.value];
    }
  }

  lemma {:induction false} EditsFit(base: Headers, events: seq<Event>, k: string)
    requires HasValues(base)
    ensures HasValues(Edits(base, events)) && HasValues(Edits(map[], events))
    ensures KeyFits(base, Edits(base, events), Edits(map[], events), k, FateOf(k, events))
  {
    if events != [] {
      var front := events[..|events| - 1];
      EditsFit(base, front, k);
      EditFits(base, Edits(base, front), Edits(map[], front), k, FateOf(k, front), events[|events| - 1]);
    }
  }

  lemma SameByKey(a: Headers, b: Headers)
    requires HasValues(a) && HasValues(b)
    ensures a == b <==> forall k :: Values(a, k) == Values(b, k)
  {
    if forall k :: Values(a, k) == Values(b, k) {
      forall k ensures k in a <==> k in b { assert Values(a, k) == Values(b, k); }
      forall k | k in a ensures a[k] == b[k] { assert Values(a, k) == Values(b, k); }
      assert a.Keys == b.Keys;
    }
  }

  lemma OverrideByKey(base: Headers, over: Headers, k: string)
    requires HasValues(base) && HasValues(over)
    ensures HasValues(Override(base, over))
    ensures Values(Override(base, over), k) == if k in over then over[k] else Values(base, k)
  {
  }

  /**
   * Laid over the earlier headers, the buffered ones are what editing them directly gives, exactly when every
   * key set earlier was left alone or replaced: additions to it and its deletion do not reach through.
   */
  lemma OverlayIsDirectIff(base: Headers, events: seq<Event>)
    requires HasValues(base)
    ensures Override(base, Edits(map[], events)) == Edits(base, events)
      <==> forall k :: k in base ==> FateOf(k, events) == Kept || FateOf(k, events) == Replaced
  {
    var direct, over := Edits(base, events), Edits(map[], events);
    forall k
      ensures HasValues(direct) && HasValues(over) && HasValues(Override(base, over))
      ensures Values(Override(base, over), k) == Values(direct, k)
        <==> k !in base || FateOf(k, events) == Kept || FateOf(k, events) == Replaced
    {
      EditsFit(base, events, k);
      OverrideByKey(base, over, k);
      KeyReaches(base, direct, over, k, FateOf(k, events));
    }
    EditsFit(base, events, "");
    OverrideByKey(base, over, "");
    SameByKey(Override(base, over), direct);
  }

  lemma KeyReaches(base: Headers, direct: Headers, over: Headers, k: string, f: Fate)
    requires HasValues(base) && HasValues(over) && KeyFits(base, direct, over, k, f)
    ensures (if k in over then over[k] else Values(base, k)) == Values(direct, k)
      <==> k !in base || f == Kept || f == Replaced
  {
    if f == AddedTo {
      assert Values(base, k) == [] ==> Values(base, k) + over[k] == over[k];
      assert |direct[k]| == |Values(base, k)| + |over[k]|;
    }
  }

  lemma FlushDeliversFinalHeaders(start: Wire, d: Wire, b: Buffer)
    requires Untouched(start) && InStep(start, d, b) && !b.degraded
    ensures FlushTo(b).sent == Some(Head(d.status, Override(start.headers, b.headers)))
  {
  }

  predicate Commits(e: Event) {
    e.WriteHeaderNow? || e.Write? || e.Flush?
  }

  /** The events before the first one that writes: what a direct writer has seen when it sends its head. */
  function BeforeWrite(events: seq<Event>): seq<Event> {
    if events == [] then []
    else
      var front := events[..|events| - 1];
      if |BeforeWrite(front)| < |front| || Commits(events[|events| - 1]) then BeforeWrite(front) else events
  }

  lemma {:induction false} DirectHead(start: Wire, events: seq<Event>)
    requires Untouched(start)
    ensures |BeforeWrite(events)| <= |events|
    ensures var d := RunDirect(start, events);
      && d.headers == Edits(start.headers, events)
      && (if BeforeWrite(events) == events then d.size == -1 && d.sent == None
          else d.size >= 0 && d.sent.Some? && d.sent.value.headers == Edits(start.headers, BeforeWrite(events)))
  {
    if events != [] {
      var front := events[..|events| - 1];
      DirectHead(start, front);
      assert BeforeWrite(front) == front || |BeforeWrite(front)| < |front| by { BeforeWriteIsPrefix(front); }
      BeforeWriteIsPrefix(front);
    }
  }

  lemma {:induction false} BeforeWriteIsPrefix(events: seq<Event>)
    ensures BeforeWrite(events) <= events
  {
    if events != [] { BeforeWriteIsPrefix(events[..|events| - 1]); }
  }

  /**
   * Below the limit the flush delivers the earlier headers overlaid with everything the handler did to its own;
   * a direct writer delivers what was edited before its first write. Which of the two a client sees is the same
   * exactly when those two maps are, whatever keys the handler sets, adds to or deletes.
   */
  lemma LateHeadersAreDelivered(start: Wire, events: seq<Event>)
    requires Untouched(start) && start.status == 200 && |Bytes(events)| <= LIMIT
    ensures var flushed := FlushTo(RunBuffered(NewBuffer(start), events)).sent;
      var direct := Commit(RunDirect(start, events)).sent;
      && flushed.Some? && flushed.value.headers == Override(start.headers, Edits(map[], events))
      && direct.Some? && direct.value.headers == Edits(start.headers, BeforeWrite(events))
      && (flushed == direct
          <==> Override(start.headers, Edits(map[], events)) == Edits(start.headers, BeforeWrite(events)))
  {
    NothingLeaksBelowTheLimit(start, events);
    BufferStaysInStep(start, events);
    HeaderMaps(start, events);
    DirectHead(start, events);
    FlushDeliversFinalHeaders(start, RunDirect(start, events), RunBuffered(NewBuffer(start), events));
    FlushInStep(start, RunDirect(start, events), RunBuffered(NewBuffer(start), events));
  }

  /**
   * For a handler that leaves every earlier key alone or replaces it, that is: exactly when no edit after the
   * first write changes the headers.
   */
  lemma SameHeadersIffNoLateEdit(start: Wire, events: seq<Event>)
    requires Untouched(start) && start.status == 200 && |Bytes(events)| <= LIMIT && HasValues(start.headers)
    requires forall k :: k in start.headers ==> FateOf(k, events) == Kept || FateOf(k, events) == Replaced
    ensures FlushTo(RunBuffered(NewBuffer(start), events)).sent == Commit(RunDirect(start, events)).sent
      <==> Edits(start.headers, events) == Edits(start.headers, BeforeWrite(events))
  {
    LateHeadersAreDelivered(start, events);
    OverlayIsDirectIff(start.headers, events);
  }

  /** A deletion cannot reach through the buffer to a header set before it. */
  lemma EarlierHeaderSurvivesDeletion(value: string)
    ensures var start := Wire(map["X" := [value]], 200, -1, None, "");
      && Commit(Direct(start, DeleteHeader("X"))).sent == Some(Head(200, map[]))
      && FlushTo(Buffered(NewBuffer(start), DeleteHeader("X"))).sent == Some(Head(200, start.headers))
  {
    var start := Wire(map["X" := [value]], 200, -1, None, "");
    assert start.headers - {"X"} == map[];
    assert Override(start.headers, map[] - {"X"}) == start.headers;
  }

  // ----- The middleware -----

  /** A JSON error: status 503, its content type unless one is set, and the error body. */
  function Refuse(w: Wire, error: string): Wire {
    var c := SetStatus(w, 503);
    var typed := if "Content-Type" in c.headers then c
                 else c.(headers := c.headers["Content-Type" := ["application/json"]]);
    Put(typed, error)
  }

  /** One request through the audit middleware, up to the commit gin makes at the end of every request. */
  function Audited(start: Wire, required: bool, gated: bool, events: seq<Event>, reported: bool, error: string): Wire {
    if required && gated then
      var b := RunBuffered(NewBuffer(start), events);
      Commit(if reported then FlushTo(b) else if b.degraded then b.orig else Refuse(b.orig, error))
    else
      var w := RunDirect(start, events);
      Commit(if required && !reported then Refuse(w, error) else w)
  }

  /** Runs the handler on the buffer or on the writer itself, then reports and answers. */
  method AuditWrites(w: GinWriter, required: bool, gated: bool, events: seq<Event>, reported: bool, error: string)
    modifies w
    ensures w.View() == Audited(old(w.View()), required, gated, events, reported, error)
  {
    ghost var start := w.View();
    if required && gated {
      var buffered := new AuditBuffer(w);
      RunHandler(buffered, events);
      if reported {
        buffered.FlushToOriginal();
      } else if !buffered.degraded {
        WriteError(w, error);
      }
    } else {
      RunOnWriter(w, events);
      if required && !reported {
        WriteError(w, error);
      }
    }
    w.CommitHead();
  }

  method RunHandler(b: AuditBuffer, events: seq<Event>)
    modifies b, b.orig
    ensures b.View() == RunBuffered(old(b.View()), events)
  {
    var i := 0;
    assert events[..0] == [];
    while i < |events|
      invariant i <= |events| && b.View() == RunBuffered(old(b.View()), events[..i])
    {
      assert events[..i + 1][..i] == events[..i];
      b.Apply(events[i]);
      i := i + 1;
    }
    assert events[..i] == events;
  }

  method RunOnWriter(w: GinWriter, events: seq<Event>)
    modifies w
    ensures w.View() == RunDirect(old(w.View()), events)
  {
    var i := 0;
    assert events[..0] == [];
    while i < |events|
      invariant i <= |events| && w.View() == RunDirect(old(w.View()), events[..i])
    {
      assert events[..i + 1][..i] == events[..i];
      w.Apply(events[i]);
      i := i + 1;
    }
    assert events[..i] == events;
  }

  method WriteError(w: GinWriter, error: string)
    modifies w
    ensures w.View() == Refuse(old(w.View()), error)
  {
    w.Apply(WriteHeader(503));
    if "Content-Type" !in w.headers {
      w.Apply(SetHeader("Content-Type", "application/json"));
    }
    w.Apply(Write(error));
  }

  /** Refusing on an untouched writer is a bare 503. */
  lemma RefuseUntouched(start: Wire, error: string)
    requires Untouched(start)
    ensures var seen := Commit(Refuse(start, error));
      seen.sent.Some? && seen.sent.value.status == 503 && seen.body == error
  {
  }

  lemma CommittedAlready(a: Wire, d: Wire)
    requires SameAnswer(a, d) && d.size != -1
    ensures Commit(a) == a
  {
  }

  /**
   * Where auditing is mandatory and the response fits the buffer, the client gets the handler's status and
   * bytes exactly when the report succeeded, and a bare 503 otherwise.
   */
  lemma {:induction false} NoSuccessWithoutAudit(
      start: Wire, events: seq<Event>, reported: bool, error: string)
    requires Untouched(start) && start.status == 200 && |Bytes(events)| <= LIMIT
    ensures var seen := Audited(start, true, true, events, reported, error);
      && (reported ==> SameAnswer(seen, Commit(RunDirect(start, events))))
      && (!reported ==> seen.sent.Some? && seen.sent.value.status == 503 && seen.body == error)
      && (error != Bytes(events) ==> (seen.body == Bytes(events) <==> reported))
  {
    NothingLeaksBelowTheLimit(start, events);
    FlushMatchesDirect(start, events);
    DirectBodyIsBytes(start, events);
    RefuseUntouched(start, error);
    BufferStaysInStep(start, events);
    CommittedAlready(FlushTo(RunBuffered(NewBuffer(start), events)), Commit(RunDirect(start, events)));
  }

  /** Past the limit, or where nothing is held back, a failed report can no longer withdraw the bytes. */
  lemma PastTheLimitNothingIsWithdrawn(start: Wire, events: seq<Event>, reported: bool, error: string)
    requires Untouched(start) && start.status == 200 && |Bytes(events)| > LIMIT
    ensures SameAnswer(Audited(start, true, true, events, reported, error), Commit(RunDirect(start, events)))
  {
    NothingLeaksBelowTheLimit(start, events);
    BufferStaysInStep(start, events);
    FlushMatchesDirect(start, events);
  }

  /** Without the buffer a failed report still refuses a handler that wrote nothing, and no other. */
  lemma UnbufferedRefusal(start: Wire, events: seq<Event>, error: string)
    requires Untouched(start) && start.status == 200
    ensures var w := RunDirect(start, events);
      var seen := Audited(start, true, false, events, false, error);
      && seen.sent.Some? && seen.body == Bytes(events) + error
      && (w.sent.None? ==> seen.sent.value.status == 503 && seen.body == error)
      && (w.sent.Some? ==> seen.sent == w.sent)
  {
    BufferStaysInStep(start, events);
    DirectBodyIsBytes(start, events);
    RefuseInStep(start, RunDirect(start, events), RunBuffered(NewBuffer(start), events), error);
  }

  lemma RefuseInStep(start: Wire, d: Wire, b: Buffer, error: string)
    requires Untouched(start) && InStep(start, d, b)
    ensures var seen := Commit(Refuse(d, error));
      && seen.sent.Some? && seen.body == d.body + error
      && (d.sent.None? ==> seen.sent.value.status == 503)
      && (d.sent.Some? ==> seen.sent == d.sent)
  {
  }
}
