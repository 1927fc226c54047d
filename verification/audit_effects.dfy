/**
 * What a handler's calls come to on a direct writer, what the buffer holds and where it stops holding, and the
 * middleware's answer in each of its cases.
 */
module AuditEffects {
  import opened Options
  import opened AuditBuffers

  // ----- Headers -----

  /** Setting replaces a key's values, adding appends one, deleting removes them; no call touches another key. */
  lemma EditIs(h: Headers, e: Event, k: string)
    requires HasValues(h)
    ensures Values(Edit(h, e), k) ==
      if e.SetHeader? && e.key == k then [e.value]
      else if e.AddHeader? && e.key == k then Values(h, k) + [e.value]
      else if e == DeleteHeader(k) then []
      else Values(h, k)
    ensures HasValues(Edit(h, e))
  {
  }

  // ----- A direct writer -----

  /** The last status asked for, zero and negative ones aside. */
  function LastCode(events: seq<Event>, otherwise: int): int {
    if events == [] then otherwise
    else
      var e := events[|events| - 1];
      if e.WriteHeader? && e.code > 0 then e.code else LastCode(events[..|events| - 1], otherwise)
  }

  /** Nothing is sent before the first write; it sends the last status and the headers asked for until then. */
  lemma {:induction false} DirectAnswer(start: Wire, events: seq<Event>)
    requires Untouched(start)
    ensures var seen := Commit(RunDirect(start, events));
      && seen.sent == Some(Head(LastCode(BeforeWrite(events), start.status), Edits(start.headers, BeforeWrite(events))))
      && seen.body == Bytes(events) && seen.size == |Bytes(events)|
    ensures BeforeWrite(events) == events ==> Untouched(RunDirect(start, events))
  {
    DirectStatus(start, events);
    DirectHead(start, events);
    DirectBodyIsBytes(start, events);
    DirectSize(start, events);
    assert start.body + Bytes(events) == Bytes(events);
  }

  lemma {:induction false} DirectStatus(start: Wire, events: seq<Event>)
    requires Untouched(start)
    ensures RunDirect(start, events).status == LastCode(BeforeWrite(events), start.status)
    ensures var d := RunDirect(start, events); d.sent.Some? ==> d.sent.value.status == d.status
    ensures RunDirect(start, events).size != -1 <==> |BeforeWrite(events)| < |events|
    ensures RunDirect(start, events).size != -1 <==> RunDirect(start, events).sent.Some?
    ensures RunDirect(start, events).size >= -1
  {
    if events != [] {
      var front := events[..|events| - 1];
      DirectStatus(start, front);
      assert BeforeWrite(front) == front || |BeforeWrite(front)| < |front| by { BeforeWriteIsPrefix(front); }
    }
  }

  lemma {:induction false} DirectSize(start: Wire, events: seq<Event>)
    requires Untouched(start)
    ensures var d := RunDirect(start, events); d.size == (if d.sent.Some? then |d.body| else -1)
    ensures RunDirect(start, events).sent.None? ==> RunDirect(start, events).body == ""
  {
    if events != [] {
      DirectSize(start, events[..|events| - 1]);
    }
  }

  // ----- The middleware -----

  /** Not audited, or reported without a buffer, the handler's answer goes out as it is. */
  lemma Unaudited(start: Wire, required: bool, gated: bool, events: seq<Event>, reported: bool, error: string)
    requires !required || (!gated && reported)
    ensures Audited(start, required, gated, events, reported, error) == Commit(RunDirect(start, events))
  {
  }

  /** The head of a refusal: 503, and the earlier headers with a content type. */
  function RefusalHead(earlier: Headers): Head {
    Head(503, if "Content-Type" in earlier then earlier else earlier["Content-Type" := ["application/json"]])
  }

  /** A refused response carries nothing of the handler's, no matter what it did: neither its headers nor its bytes. */
  lemma NothingOfTheHandler(start: Wire, events: seq<Event>, error: string)
    requires Untouched(start) && |Bytes(events)| <= 65536
    ensures var seen := Audited(start, true, true, events, false, error);
      seen.sent == Some(RefusalHead(start.headers)) && seen.body == error && seen.size == |error|
  {
    NothingLeaksBelowTheLimit(start, events);
  }

  /** Without the buffer the refusal keeps the handler's headers, and comes too late once anything was written. */
  lemma UnbufferedHead(start: Wire, events: seq<Event>, error: string)
    requires Untouched(start)
    ensures var seen := Audited(start, true, false, events, false, error);
      seen.sent == if BeforeWrite(events) == events then Some(RefusalHead(Edits(start.headers, events)))
                   else Commit(RunDirect(start, events)).sent
  {
    DirectHead(start, events);
    DirectStatus(start, events);
    BeforeWriteIsPrefix(events);
  }

  lemma PassingWrite(start: Wire, b: Buffer, more: string)
    requires Untouched(start) && b.orig == start && !b.degraded && b.status > 0 && |b.body| <= LIMIT
    ensures var out := BufferWrite(b, more).orig;
      if |b.body| + |more| <= 65536 then out == start
      else && out.body == b.body + more
           && out.sent == Some(Head(b.status, Override(start.headers, b.headers)))
  {
    assert start.body + (b.body + more) == b.body + more;
  }

  /**
   * A response of up to the limit is held back. The write that passes it sends everything before it too, under the
   * status asked for before the first write and with all headers set until then.
   */
  lemma HeldUpToTheLimit(start: Wire, events: seq<Event>, more: string)
    requires Untouched(start) && start.status == 200 && |Bytes(events)| <= 65536
    ensures RunBuffered(NewBuffer(start), events).orig == start
    ensures var out := RunBuffered(NewBuffer(start), events + [Write(more)]).orig;
      if |Bytes(events)| + |more| <= 65536 then out == start
      else && out.body == Bytes(events) + more
           && out.sent == Some(Head(LastCode(BeforeWrite(events), 200), Override(start.headers, Edits(map[], events))))
  {
    var b, all := RunBuffered(NewBuffer(start), events), events + [Write(more)];
    assert all[..|events|] == events;
    assert RunBuffered(NewBuffer(start), all) == BufferWrite(b, more);
    RunCarries(start, events);
    BufferStaysInStep(start, events);
    HeaderMaps(start, events);
    DirectStatus(start, events);
    PassingWrite(start, b, more);
  }

  /** A reported response goes out whole: the first write's status, all headers the handler set, and all its bytes. */
  lemma ReportedAnswer(start: Wire, events: seq<Event>, error: string)
    requires Untouched(start) && start.status == 200 && |Bytes(events)| <= 65536
    ensures var seen := Audited(start, true, true, events, true, error);
      && seen.sent == Some(Head(LastCode(BeforeWrite(events), 200), Override(start.headers, Edits(map[], events))))
      && seen.body == Bytes(events) && seen.size == |Bytes(events)|
      && seen.status == LastCode(BeforeWrite(events), 200)
  {
    DirectStatus(start, events);
    LateHeadersAreDelivered(start, events);
    FlushMatchesDirect(start, events);
    DirectAnswer(start, events);
  }
}
