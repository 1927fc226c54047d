/** The messages of one delivery event: addressed in full or not at all, then cut into deliverable parts. */
module Messages {
  import opened Options
  import opened Recipients
  import opened Text

  // ----- Batching -----

  const BATCH := 500

  datatype Message = Message(eventID: string, key: string, recipients: seq<string>)

  function Min(a: nat, b: nat): nat {
    if a < b then a else b
  }

  /** Part number n of a message too large for one delivery, counting from 1. */
  function Part(m: Message, n: nat): Message
    requires n >= 1 && (n - 1) * BATCH <= |m.recipients|
  {
    Message(m.eventID + "-" + Decimal(n), m.key + "-part-" + Decimal(n),
            m.recipients[(n - 1) * BATCH..Min(n * BATCH, |m.recipients|)])
  }

  function Concat(parts: seq<Message>): seq<string> {
    if parts == [] then [] else Concat(parts[..|parts| - 1]) + parts[|parts| - 1].recipients
  }

  /** A split that loses nothing: non-empty parts of legal size, in order, under different identities. */
  ghost predicate SplitOf(m: Message, parts: seq<Message>) {
    && Concat(parts) == m.recipients
    && (forall i :: 0 <= i < |parts| ==> |parts[i].recipients| <= BATCH)
    && (|m.recipients| > 0 ==> forall i :: 0 <= i < |parts| ==> |parts[i].recipients| > 0)
    && (forall i, j :: 0 <= i < j < |parts| ==> parts[i].key != parts[j].key && parts[i].eventID != parts[j].eventID)
    && (|m.recipients| <= BATCH ==> parts == [m])
  }

  lemma NumberedTextsDiffer(text: string, i: nat, j: nat)
    requires i != j
    ensures text + Decimal(i) != text + Decimal(j)
  {
    assert (text + Decimal(i))[|text|..] == Decimal(i);
    assert (text + Decimal(j))[|text|..] == Decimal(j);
    if Decimal(i) == Decimal(j) { DecimalInjective(i, j); }
  }

  /** How many parts a list of this length takes. */
  function PartCount(length: nat): (n: nat)
    ensures n * BATCH >= length && (n > 0 ==> (n - 1) * BATCH < length)
  {
    if length <= BATCH then (if length == 0 then 0 else 1) else 1 + PartCount(length - BATCH)
  }

  function FirstParts(m: Message, n: nat): (parts: seq<Message>)
    requires n <= PartCount(|m.recipients|)
    ensures |parts| == n
  {
    if n == 0 then [] else FirstParts(m, n - 1) + [Part(m, n)]
  }

  function PartsOf(m: Message): seq<Message> {
    if |m.recipients| <= BATCH then [m] else FirstParts(m, PartCount(|m.recipients|))
  }

  lemma {:induction false} FirstPartsAt(m: Message, n: nat, i: nat)
    requires i < n <= PartCount(|m.recipients|)
    ensures FirstParts(m, n)[i] == Part(m, i + 1)
  {
    if i < n - 1 { FirstPartsAt(m, n - 1, i); }
  }

  lemma {:induction false} FirstPartsConcat(m: Message, n: nat)
    requires n <= PartCount(|m.recipients|)
    ensures Concat(FirstParts(m, n)) == m.recipients[..Min(n * BATCH, |m.recipients|)]
  {
    if n > 0 {
      FirstPartsConcat(m, n - 1);
      var parts := FirstParts(m, n);
      assert parts[..|parts| - 1] == FirstParts(m, n - 1);
      var done, upto := (n - 1) * BATCH, Min(n * BATCH, |m.recipients|);
      assert m.recipients[..done] + m.recipients[done..upto] == m.recipients[..upto];
    }
  }

  lemma PartsDiffer(m: Message, i: nat, j: nat)
    requires i < j < PartCount(|m.recipients|)
    ensures Part(m, i + 1).key != Part(m, j + 1).key && Part(m, i + 1).eventID != Part(m, j + 1).eventID
  {
    NumberedTextsDiffer(m.key + "-part-", i + 1, j + 1);
    NumberedTextsDiffer(m.eventID + "-", i + 1, j + 1);
  }

  /** Cutting a message loses no one, adds no one, and gives every part its own keys. */
  lemma PartsOfIsASplit(m: Message)
    ensures SplitOf(m, PartsOf(m))
  {
    if |m.recipients| <= BATCH {
      assert [m][..0] == [];
    } else {
      var n := PartCount(|m.recipients|);
      var parts := PartsOf(m);
      FirstPartsConcat(m, n);
      forall i | 0 <= i < n ensures 0 < |parts[i].recipients| <= BATCH { FirstPartsAt(m, n, i); }
      forall i, j | 0 <= i < j < n ensures parts[i].key != parts[j].key && parts[i].eventID != parts[j].eventID {
        FirstPartsAt(m, n, i);
        FirstPartsAt(m, n, j);
        PartsDiffer(m, i, j);
      }
    }
  }

  method Batch(m: Message) returns (parts: seq<Message>)
    ensures parts == PartsOf(m)
  {
    if |m.recipients| <= BATCH {
      return [m];
    }
    parts := [];
    var offset, n := 0, 0;
    while offset < |m.recipients|
      invariant offset == n * BATCH && n <= PartCount(|m.recipients|)
      invariant parts == FirstParts(m, n)
    {
      n := n + 1;
      parts := parts + [Part(m, n)];
      offset := offset + BATCH;
    }
  }

  // ----- The messages of one delivery event -----

  /** A message still without recipients, and the roles it goes to. */
  datatype Draft = Draft(roles: seq<string>, message: Message)

  ghost predicate Addressable(personnel: Option<Directory>, d: Draft) {
    personnel.Some? && forall role :: role in d.roles ==> RoleComplete(personnel.value, role)
  }

  function Addressed(personnel: Option<Directory>, d: Draft): Message {
    d.message.(recipients := if personnel.Some? then Expected(personnel.value, d.roles) else [])
  }

  method Address(personnel: Option<Directory>, d: Draft) returns (m: Option<Message>)
    ensures m.Some? <==> Addressable(personnel, d)
    ensures m.Some? ==> m.value == Addressed(personnel, d)
  {
    var recipients := RoleRecipients(personnel, d.roles);
    m := if recipients.Some? then Some(d.message.(recipients := recipients.value)) else None;
  }

  method AddressAll(personnel: Option<Directory>, drafts: seq<Draft>) returns (r: Option<seq<Message>>)
    ensures r.Some? <==> forall i :: 0 <= i < |drafts| ==> Addressable(personnel, drafts[i])
    ensures r.Some? ==> |r.value| == |drafts|
    ensures r.Some? ==> forall i :: 0 <= i < |drafts| ==> r.value[i] == Addressed(personnel, drafts[i])
  {
    var messages: seq<Message> := [];
    var i := 0;
    while i < |drafts|
      invariant i == |messages| <= |drafts|
      invariant forall j :: 0 <= j < i ==> Addressable(personnel, drafts[j])
      invariant forall j :: 0 <= j < i ==> messages[j] == Addressed(personnel, drafts[j])
    {
      var message := Address(personnel, drafts[i]);
      if message.None? {
        return None;
      }
      messages := messages + [message.value];
      i := i + 1;
    }
    r := Some(messages);
  }

  method BatchAll(messages: seq<Message>) returns (batched: seq<seq<Message>>)
    ensures |batched| == |messages|
    ensures forall j :: 0 <= j < |messages| ==> batched[j] == PartsOf(messages[j])
  {
    batched := [];
    var i := 0;
    while i < |messages|
      invariant i == |batched| <= |messages|
      invariant forall j :: 0 <= j < i ==> batched[j] == PartsOf(messages[j])
    {
      var parts := Batch(messages[i]);
      batched := batched + [parts];
      i := i + 1;
    }
  }

  /** All parts of all messages, or none at all when a single role of a single draft cannot be read in full. */
  method BuildMessages(personnel: Option<Directory>, drafts: seq<Draft>) returns (r: Option<seq<seq<Message>>>)
    ensures r.Some? <==> forall i :: 0 <= i < |drafts| ==> Addressable(personnel, drafts[i])
    ensures r.Some? ==> |r.value| == |drafts|
    ensures r.Some? ==> forall i :: 0 <= i < |drafts| ==> r.value[i] == PartsOf(Addressed(personnel, drafts[i]))
  {
    var messages := AddressAll(personnel, drafts);
    if messages.None? {
      return None;
    }
    var batched := BatchAll(messages.value);
    r := Some(batched);
  }

  // ----- The delivery events beside the messages -----

  /** The library's identifiers: the number a text stands for, if it is one, and the text of a number. */
  datatype Ulid = Ulid(parse: string -> Option<nat>, show: nat -> string)

  /** An identifier has 128 bits. */
  const ULIDS := 0x1_0000_0000_0000_0000_0000_0000_0000_0000

  ghost predicate RoundTrips(u: Ulid) {
    && (forall text :: u.parse(text).Some? ==> u.parse(text).value < ULIDS)
    && forall n: nat :: n < ULIDS ==> u.parse(u.show(n)) == Some(n)
  }

  /** The lowest bit flipped. */
  function Flip(n: nat): nat {
    if n % 2 == 0 then n + 1 else n - 1
  }

  lemma FlipIsAnotherNumber(n: nat)
    ensures Flip(n) != n && Flip(Flip(n)) == n && (n < ULIDS ==> Flip(n) < ULIDS)
  {
    assert ULIDS % 2 == 0;
    if n % 2 == 0 { assert (n + 1) % 2 == 1; } else { assert (n - 1) % 2 == 0; }
  }

  /** The text of the flipped identifier is a different one, and flipping that gives the first number again. */
  lemma FlippedIsAnotherID(u: Ulid, id: string)
    requires RoundTrips(u) && u.parse(id).Some?
    ensures var other := u.show(Flip(u.parse(id).value));
      other != id && u.parse(other).Some? && Flip(u.parse(other).value) == u.parse(id).value
  {
    FlipIsAnotherNumber(u.parse(id).value);
  }

  datatype DerivedEvent = AutomationTriggered(id: string, targets: seq<string>) | WarningTriggered(id: string)

  /** One accepted command's effects: the job's identifier, the event that caused it, and what is to follow. */
  datatype DeliveryEffects = DeliveryEffects(
    id: string, sourceID: string, targets: seq<string>, warning: bool, notification: Option<Draft>)

  function DraftsOf(e: DeliveryEffects): seq<Draft> {
    (if e.targets != [] then [Draft(e.targets, Message(e.id, e.sourceID + "-automation-notification", []))] else [])
    + if e.notification.Some? then [e.notification.value] else []
  }

  /** The automation carries the job's identifier, the warning that of the flipped number. */
  function EventsOf(u: Ulid, e: DeliveryEffects): seq<DerivedEvent>
    requires e.warning ==> u.parse(e.id).Some?
  {
    (if e.targets != [] then [AutomationTriggered(e.id, e.targets)] else [])
    + if e.warning then [WarningTriggered(u.show(Flip(u.parse(e.id).value)))] else []
  }

  ghost predicate CanBuild(u: Ulid, personnel: Option<Directory>, e: DeliveryEffects) {
    && (e.warning ==> u.parse(e.id).Some?)
    && forall i :: 0 <= i < |DraftsOf(e)| ==> Addressable(personnel, DraftsOf(e)[i])
  }

  /**
   * Everything one command causes, or nothing: its events under different identifiers, and all parts of its
   * messages. A warning needs an identifier that can be flipped, a message complete roles.
   */
  method BuildDeliveryEffects(u: Ulid, personnel: Option<Directory>, e: DeliveryEffects)
    returns (r: Option<(seq<DerivedEvent>, seq<seq<Message>>)>)
    requires RoundTrips(u)
    ensures r.Some? <==> CanBuild(u, personnel, e)
    ensures r.Some? ==> r.value.0 == EventsOf(u, e) && |r.value.1| == |DraftsOf(e)|
    ensures r.Some? ==> forall i, j :: 0 <= i < j < |r.value.0| ==> r.value.0[i].id != r.value.0[j].id
    ensures r.Some? ==> forall i :: 0 <= i < |DraftsOf(e)| ==>
      r.value.1[i] == PartsOf(Addressed(personnel, DraftsOf(e)[i]))
  {
    var events: seq<DerivedEvent> := [];
    if |e.targets| > 0 {
      events := [AutomationTriggered(e.id, e.targets)];
    }
    if e.warning {
      var number := u.parse(e.id);
      if number.None? {
        return None;
      }
      FlippedIsAnotherID(u, e.id);
      events := events + [WarningTriggered(u.show(Flip(number.value)))];
    }
    var messages := BuildMessages(personnel, DraftsOf(e));
    r := if messages.Some? then Some((events, messages.value)) else None;
  }

  // ----- In terms of the command -----

  /** The parts of a large message: five hundred recipients each, in order, numbered from one in key and identifier. */
  lemma PartsAre(m: Message, i: nat)
    requires |m.recipients| > 500 && i * 500 < |m.recipients|
    ensures var parts, end := PartsOf(m), if (i + 1) * 500 < |m.recipients| then (i + 1) * 500 else |m.recipients|;
      && (|parts| - 1) * 500 < |m.recipients| <= |parts| * 500 && i < |parts|
      && parts[i] == Message(m.eventID + "-" + Decimal(i + 1), m.key + "-part-" + Decimal(i + 1),
                             m.recipients[i * 500..end])
  {
    var n := PartCount(|m.recipients|);
    assert i < n;
    FirstPartsAt(m, n, i);
  }

  /** Whoever a command notifies: the targets of its automation first, then whom its own notification names. */
  lemma DraftsAre(e: DeliveryEffects)
    ensures var automation := Draft(e.targets, Message(e.id, e.sourceID + "-automation-notification", []));
      DraftsOf(e) == match (e.targets != [], e.notification)
        case (false, None) => []
        case (true, None) => [automation]
        case (false, Some(own)) => [own]
        case (true, Some(own)) => [automation, own]
  {
  }

  /** What a command sets off: its automation under the job's identifier, its warning under the neighbouring one. */
  lemma EventsAre(u: Ulid, e: DeliveryEffects)
    requires RoundTrips(u) && u.parse(e.id).Some?
    ensures var n := u.parse(e.id).value;
      var warning := WarningTriggered(u.show(if n % 2 == 0 then n + 1 else n - 1));
      EventsOf(u, e) == match (e.targets != [], e.warning)
        case (false, false) => []
        case (true, false) => [AutomationTriggered(e.id, e.targets)]
        case (false, true) => [warning]
        case (true, true) => [AutomationTriggered(e.id, e.targets), warning]
  {
  }

  /** It can be built exactly if the identifier of a warning is readable and every role it writes to is complete. */
  lemma CanBuildIff(u: Ulid, personnel: Option<Directory>, e: DeliveryEffects)
    ensures CanBuild(u, personnel, e) <==>
      && (e.warning ==> u.parse(e.id).Some?)
      && (e.targets != [] || e.notification.Some? ==> personnel.Some?)
      && (forall role :: role in e.targets ==> RoleComplete(personnel.value, role))
      && (e.notification.Some? ==>
            forall role :: role in e.notification.value.roles ==> RoleComplete(personnel.value, role))
  {
    DraftsAre(e);
    if CanBuild(u, personnel, e) {
      if e.targets != [] { assert Addressable(personnel, DraftsOf(e)[0]); }
      if e.notification.Some? { assert Addressable(personnel, DraftsOf(e)[|DraftsOf(e)| - 1]); }
    }
  }

  /** An addressed message is the drafted one, to exactly the people of its roles. */
  lemma AddressedIs(personnel: Directory, d: Draft)
    ensures var m := Addressed(Some(personnel), d);
      m.eventID == d.message.eventID && m.key == d.message.key && m.recipients == Expected(personnel, d.roles)
  {
  }
}
