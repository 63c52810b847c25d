/**
 The S3 event sink (app/infra/s3/event_sink.py): events are buffered under a lock, a flush
 swaps the buffer out, uploads it without the lock and puts it back in front on failure.
 A full buffer loses its oldest events.

 An event carries its position among all adds, so that two equal payloads stay apart.
 Serialising a batch is taken to succeed; an upload takes effect whole or not at all.
 */
module EventSink {
  const MAX_BUFFER: nat := 50_000

  datatype Event = Event(number: nat, body: string)

  /** `batches` are the swapped-out buffers whose uploads are in progress. */
  datatype State = State(
    added: seq<Event>, buffer: seq<Event>, batches: seq<seq<Event>>, uploaded: seq<Event>, dropped: seq<Event>)

  const EMPTY := State([], [], [], [], [])

  /** How many of the oldest entries do not fit. */
  function Excess(buffer: seq<Event>): (n: nat)
    ensures n <= |buffer| && |buffer| - n <= MAX_BUFFER
  {
    if |buffer| > MAX_BUFFER then |buffer| - MAX_BUFFER else 0
  }

  function Trim(s: State): State {
    var n := Excess(s.buffer);
    s.(buffer := s.buffer[n..], dropped := s.dropped + s.buffer[..n])
  }

  function AfterAdd(s: State, body: string): State {
    var e := Event(|s.added|, body);
    Trim(s.(added := s.added + [e], buffer := s.buffer + [e]))
  }

  /** The critical section at the start of a flush; nothing to do when the buffer is empty. */
  function AfterSwap(s: State): State {
    if s.buffer == [] then s else s.(batches := s.batches + [s.buffer], buffer := [])
  }

  function Without(batches: seq<seq<Event>>, i: nat): seq<seq<Event>>
    requires i < |batches|
  {
    batches[..i] + batches[i + 1..]
  }

  function AfterUpload(s: State, i: nat): State
    requires i < |s.batches|
  {
    s.(uploaded := s.uploaded + s.batches[i], batches := Without(s.batches, i))
  }

  function AfterRequeue(s: State, i: nat): State
    requires i < |s.batches|
  {
    Trim(s.(buffer := s.batches[i] + s.buffer, batches := Without(s.batches, i)))
  }

  datatype Step = Add(body: string) | Swap | UploadSucceeds(i: nat) | UploadFails(i: nat)

  predicate Enabled(s: State, e: Step) {
    (e.UploadSucceeds? || e.UploadFails?) ==> e.i < |s.batches|
  }

  function Apply(s: State, e: Step): State
    requires Enabled(s, e)
  {
    match e
    case Add(body) => AfterAdd(s, body)
    case Swap => AfterSwap(s)
    case UploadSucceeds(i) => AfterUpload(s, i)
    case UploadFails(i) => AfterRequeue(s, i)
  }

  ghost predicate IsRun(trace: seq<State>, steps: seq<Step>) {
    && |trace| == |steps| + 1 && trace[0] == EMPTY
    && forall i :: 0 <= i < |steps| ==> Enabled(trace[i], steps[i]) && trace[i + 1] == Apply(trace[i], steps[i])
  }

  // ---------------------------------------------------------------- nothing lost, nothing twice

  function InFlight(batches: seq<seq<Event>>): multiset<Event> {
    if batches == [] then multiset{} else multiset(batches[0]) + InFlight(batches[1..])
  }

  lemma {:induction false} InFlightSplits(a: seq<seq<Event>>, b: seq<seq<Event>>)
    ensures InFlight(a + b) == InFlight(a) + InFlight(b)
  {
    if a == [] {
      assert a + b == b;
    } else {
      assert (a + b)[1..] == a[1..] + b;
      InFlightSplits(a[1..], b);
    }
  }

  lemma {:induction false} InFlightWithout(batches: seq<seq<Event>>, i: nat)
    requires i < |batches|
    ensures InFlight(batches) == InFlight(Without(batches, i)) + multiset(batches[i])
  {
    var rest := batches[1..];
    if i == 0 {
      assert Without(batches, 0) == rest;
    } else {
      var fewer := Without(rest, i - 1);
      InFlightWithout(rest, i - 1);
      assert Without(batches, i) == [batches[0]] + fewer;
      assert Without(batches, i)[1..] == fewer;
    }
  }

  /** Where the events are, each place with its multiplicity. */
  function Everywhere(s: State): multiset<Event> {
    multiset(s.uploaded) + InFlight(s.batches) + multiset(s.buffer) + multiset(s.dropped)
  }

  ghost predicate Numbered(added: seq<Event>) {
    forall i :: 0 <= i < |added| ==> added[i].number == i
  }

  ghost predicate Conserved(s: State) {
    Numbered(s.added) && Everywhere(s) == multiset(s.added) && |s.buffer| <= MAX_BUFFER
  }

  lemma TrimConserves(s: State)
    ensures Everywhere(Trim(s)) == Everywhere(s) && |Trim(s).buffer| <= MAX_BUFFER
  {
    assert s.buffer == s.buffer[..Excess(s.buffer)] + s.buffer[Excess(s.buffer)..];
  }

  lemma AddConserves(s: State, body: string)
    requires Conserved(s)
    ensures Conserved(AfterAdd(s, body))
  {
    var event := Event(|s.added|, body);
    var longer := s.(added := s.added + [event], buffer := s.buffer + [event]);
    assert Everywhere(longer) == Everywhere(s) + multiset{event};
    TrimConserves(longer);
  }

  lemma SwapConserves(s: State)
    requires Conserved(s)
    ensures Conserved(AfterSwap(s))
  {
    InFlightSplits(s.batches, [s.buffer]);
    assert InFlight([s.buffer]) == multiset(s.buffer);
  }

  lemma UploadConserves(s: State, i: nat)
    requires Conserved(s) && i < |s.batches|
    ensures Conserved(AfterUpload(s, i))
  {
    InFlightWithout(s.batches, i);
  }

  lemma RequeueConserves(s: State, i: nat)
    requires Conserved(s) && i < |s.batches|
    ensures Conserved(AfterRequeue(s, i))
  {
    InFlightWithout(s.batches, i);
    TrimConserves(s.(buffer := s.batches[i] + s.buffer, batches := Without(s.batches, i)));
  }

  lemma StepConserves(s: State, e: Step)
    requires Conserved(s) && Enabled(s, e)
    ensures Conserved(Apply(s, e))
  {
    match e
    case Add(body) => AddConserves(s, body);
    case Swap => SwapConserves(s);
    case UploadSucceeds(i) => UploadConserves(s, i);
    case UploadFails(i) => RequeueConserves(s, i);
  }

  lemma {:induction false} NumberedOccurOnce(added: seq<Event>, e: Event)
    requires Numbered(added) && e in added
    ensures multiset(added)[e] == 1
  {
    var n := |added| - 1;
    assert added == added[..n] + [added[n]];
    if e in added[..n] {
      NumberedOccurOnce(added[..n], e);
      assert e.number < n;
    }
  }

  /**
   In every interleaving of adds and flushes each added event is in exactly one place, once:
   uploaded, in one batch in flight, buffered or dropped.  The buffer stays within its bound.
   */
  lemma {:induction false} EveryEventInExactlyOnePlace(trace: seq<State>, steps: seq<Step>)
    requires IsRun(trace, steps)
    ensures var s := trace[|steps|];
      && Conserved(s)
      && forall e :: e in s.added ==>
           multiset(s.uploaded)[e] + InFlight(s.batches)[e] + multiset(s.buffer)[e] + multiset(s.dropped)[e] == 1
  {
    if steps != [] {
      var n := |steps| - 1;
      EveryEventInExactlyOnePlace(trace[..n + 1], steps[..n]);
      StepConserves(trace[n], steps[n]);
    }
    var s := trace[|steps|];
    forall e | e in s.added
      ensures multiset(s.uploaded)[e] + InFlight(s.batches)[e] + multiset(s.buffer)[e] + multiset(s.dropped)[e] == 1
    {
      NumberedOccurOnce(s.added, e);
      assert Everywhere(s)[e] == 1;
    }
  }

  // ---------------------------------------------------------------- only the overflow is dropped

  /** What a step brings to the buffer: a new event, or the batch of a failed upload. */
  function Incoming(s: State, e: Step): nat
    requires Enabled(s, e)
  {
    match e
    case Add(_) => 1
    case UploadFails(i) => |s.batches[i]|
    case Swap => 0
    case UploadSucceeds(_) => 0
  }

  /** A step drops exactly what exceeds the bound, and then leaves a full buffer. */
  ghost predicate DropsTheOverflow(s: State, e: Step, s': State)
    requires Enabled(s, e)
  {
    var held := |s.buffer| + Incoming(s, e);
    && s.dropped <= s'.dropped
    && |s'.dropped| - |s.dropped| == (if held > MAX_BUFFER then held - MAX_BUFFER else 0)
    && (s'.dropped != s.dropped ==> |s'.buffer| == MAX_BUFFER)
  }

  lemma StepDropsTheOverflow(s: State, e: Step)
    requires Enabled(s, e) && |s.buffer| <= MAX_BUFFER
    ensures DropsTheOverflow(s, e, Apply(s, e))
  {
    var s' := Apply(s, e);
    assert s.dropped <= s'.dropped && (|s'.dropped| == |s.dropped| ==> s'.dropped == s.dropped);
  }

  /** While they fit, an added event joins the end of the buffer and a failed batch its front. */
  lemma FittingStepsKeepAll(s: State, e: Step)
    requires Enabled(s, e) && |s.buffer| + Incoming(s, e) <= MAX_BUFFER
    ensures match e
      case Add(body) => Apply(s, e).buffer == s.buffer + [Event(|s.added|, body)]
      case UploadFails(i) => Apply(s, e).buffer == s.batches[i] + s.buffer
      case Swap => s.buffer != [] ==> Apply(s, e).batches == s.batches + [s.buffer] && Apply(s, e).buffer == []
      case UploadSucceeds(i) => Apply(s, e).buffer == s.buffer && Apply(s, e).uploaded == s.uploaded + s.batches[i]
  {
  }

  ghost predicate AlwaysFits(trace: seq<State>, steps: seq<Step>)
    requires IsRun(trace, steps)
  {
    forall i :: 0 <= i < |steps| ==> |trace[i].buffer| + Incoming(trace[i], steps[i]) <= MAX_BUFFER
  }

  /** A run of adds and flushes, however they overlap, loses an event if and only if some step brings more than fits. */
  lemma {:induction false} RunsLoseNothingIffAlwaysFits(trace: seq<State>, steps: seq<Step>)
    requires IsRun(trace, steps)
    ensures trace[|steps|].dropped == [] <==> AlwaysFits(trace, steps)
    ensures steps != [] ==> DropsTheOverflow(trace[|steps| - 1], steps[|steps| - 1], trace[|steps|])
  {
    if steps != [] {
      var n := |steps| - 1;
      RunsLoseNothingIffAlwaysFits(trace[..n + 1], steps[..n]);
      EveryEventInExactlyOnePlace(trace[..n + 1], steps[..n]);
      StepDropsTheOverflow(trace[n], steps[n]);
      assert AlwaysFits(trace, steps) <==>
        AlwaysFits(trace[..n + 1], steps[..n]) && |trace[n].buffer| + Incoming(trace[n], steps[n]) <= MAX_BUFFER;
    }
  }

  // ---------------------------------------------------------------- order with a single flusher

  ghost predicate Increasing(events: seq<Event>) {
    forall i, j :: 0 <= i < j < |events| ==> events[i].number < events[j].number
  }

  /** Uploaded, then the batch in flight, then the buffer. */
  function Pipeline(s: State): seq<Event>
    requires |s.batches| <= 1
  {
    s.uploaded + (if s.batches == [] then [] else s.batches[0]) + s.buffer
  }

  /** A subsequence of the adds, in their order. */
  ghost predicate InOrder(s: State) {
    && |s.batches| <= 1 && Increasing(Pipeline(s))
    && forall e :: e in Pipeline(s) ==> e.number < |s.added| && s.added[e.number] == e
  }

  lemma DroppingKeepsOrder(front: seq<Event>, tail: seq<Event>, n: nat)
    requires n <= |tail| && Increasing(front + tail)
    ensures Increasing(front + tail[n..])
    ensures forall d, k :: d in tail[..n] && k in tail[n..] ==> d.number < k.number
  {
    forall i, j | 0 <= i < j < |front + tail[n..]|
      ensures (front + tail[n..])[i].number < (front + tail[n..])[j].number
    {
      var i', j' := if i < |front| then i else i + n, if j < |front| then j else j + n;
      assert (front + tail)[i'] == (front + tail[n..])[i] && (front + tail)[j'] == (front + tail[n..])[j];
    }
    forall d, k | d in tail[..n] && k in tail[n..] ensures d.number < k.number {
      var i :| 0 <= i < n && tail[..n][i] == d;
      var j :| 0 <= j < |tail| - n && tail[n..][j] == k;
      assert (front + tail)[|front| + i] == d && (front + tail)[|front| + n + j] == k;
    }
  }

  /** Every event a step drops is older than every event the buffer keeps. */
  ghost predicate DropsOldest(s: State, s': State) {
    && s.dropped <= s'.dropped
    && forall d, k :: d in s'.dropped[|s.dropped|..] && k in s'.buffer ==> d.number < k.number
  }

  lemma AddKeepsOrder(s: State, body: string)
    requires InOrder(s)
    ensures InOrder(AfterAdd(s, body)) && DropsOldest(s, AfterAdd(s, body))
  {
    var e := Event(|s.added|, body);
    var front: seq<Event> := s.uploaded + (if s.batches == [] then [] else s.batches[0]);
    var tail: seq<Event> := s.buffer + [e];
    assert front + tail == Pipeline(s) + [e];
    forall i, j | 0 <= i < j < |front + tail| ensures (front + tail)[i].number < (front + tail)[j].number {
      if j == |Pipeline(s)| {
        assert Pipeline(s)[i] in Pipeline(s);
      }
    }
    DroppingKeepsOrder(front, tail, Excess(tail));
    assert Pipeline(AfterAdd(s, body)) == front + tail[Excess(tail)..];
    assert AfterAdd(s, body).dropped[|s.dropped|..] == tail[..Excess(tail)];
    forall x | x in front + tail[Excess(tail)..] ensures x.number < |s.added| + 1 && (s.added + [e])[x.number] == x {
      assert x in Pipeline(s) || x == e;
    }
  }

  lemma RequeueKeepsOrder(s: State)
    requires InOrder(s) && |s.batches| == 1
    ensures InOrder(AfterRequeue(s, 0)) && DropsOldest(s, AfterRequeue(s, 0))
  {
    var tail := s.batches[0] + s.buffer;
    assert s.uploaded + tail == Pipeline(s);
    DroppingKeepsOrder(s.uploaded, tail, Excess(tail));
    var s' := AfterRequeue(s, 0);
    assert s'.dropped[|s.dropped|..] == tail[..Excess(tail)];
    assert Pipeline(s') == s.uploaded + tail[Excess(tail)..];
    assert forall x :: x in Pipeline(s') ==> x in Pipeline(s);
  }

  lemma StepKeepsOrder(s: State, e: Step)
    requires InOrder(s) && Enabled(s, e) && |Apply(s, e).batches| <= 1
    ensures InOrder(Apply(s, e)) && DropsOldest(s, Apply(s, e))
  {
    match e
    case Add(body) => AddKeepsOrder(s, body);
    case Swap => assert Pipeline(AfterSwap(s)) == Pipeline(s);
    case UploadSucceeds(i) => assert Pipeline(AfterUpload(s, i)) == Pipeline(s);
    case UploadFails(i) => RequeueKeepsOrder(s);
  }

  /**
   With one flush at a time, uploaded followed by in flight followed by buffered is always an
   order-preserving subsequence of the adds, and every step drops the oldest of what it held
   in the returned batch and the buffer.
   */
  lemma {:induction false} SingleFlusherKeepsOrder(trace: seq<State>, steps: seq<Step>)
    requires IsRun(trace, steps)
    requires forall i :: 0 <= i < |trace| ==> |trace[i].batches| <= 1
    ensures InOrder(trace[|steps|])
    ensures steps != [] ==> DropsOldest(trace[|steps| - 1], trace[|steps|])
  {
    if steps != [] {
      var n := |steps| - 1;
      SingleFlusherKeepsOrder(trace[..n + 1], steps[..n]);
      StepKeepsOrder(trace[n], steps[n]);
    }
  }

  // ---------------------------------------------------------------- order with any number of flushers

  function Concat(batches: seq<seq<Event>>): seq<Event> {
    if batches == [] then [] else batches[0] + Concat(batches[1..])
  }

  /** Uploaded, then every batch in flight from the oldest, then the buffer. */
  function Line(s: State): seq<Event> {
    s.uploaded + Concat(s.batches) + s.buffer
  }

  ghost predicate Shaped(s: State) {
    && |s.buffer| <= MAX_BUFFER && (forall i :: 0 <= i < |s.batches| ==> s.batches[i] != [])
    && forall e :: e in Line(s) ==> e.number < |s.added|
  }

  lemma {:induction false} ConcatSplits(a: seq<seq<Event>>, b: seq<seq<Event>>)
    ensures Concat(a + b) == Concat(a) + Concat(b)
  {
    if a == [] {
      assert a + b == b;
    } else {
      assert (a + b)[1..] == a[1..] + b;
      ConcatSplits(a[1..], b);
    }
  }

  /** The events before, in and after one batch. */
  lemma ConcatAround(batches: seq<seq<Event>>, i: nat)
    requires i < |batches|
    ensures Concat(batches) == Concat(batches[..i]) + batches[i] + Concat(batches[i + 1..])
    ensures Concat(Without(batches, i)) == Concat(batches[..i]) + Concat(batches[i + 1..])
  {
    assert batches == batches[..i] + batches[i..];
    ConcatSplits(batches[..i], batches[i..]);
    ConcatSplits(batches[..i], batches[i + 1..]);
    assert batches[i..][1..] == batches[i + 1..];
  }

  lemma FirstOfConcat(batches: seq<seq<Event>>)
    requires batches != [] && forall i :: 0 <= i < |batches| ==> batches[i] != []
    ensures Concat(batches) != []
  {
    assert batches[0] != [];
  }

  ghost predicate Before(a: seq<Event>, b: seq<Event>) {
    forall x, y :: x in a && y in b ==> x.number < y.number
  }

  lemma IncreasingSplits(a: seq<Event>, b: seq<Event>)
    ensures Increasing(a + b) <==> Increasing(a) && Increasing(b) && Before(a, b)
  {
    if Increasing(a + b) {
      assert forall i :: 0 <= i < |a| ==> (a + b)[i] == a[i];
      assert forall i :: 0 <= i < |b| ==> (a + b)[|a| + i] == b[i];
      forall x, y | x in a && y in b ensures x.number < y.number {
        var i :| 0 <= i < |a| && a[i] == x;
        var j :| 0 <= j < |b| && b[j] == y;
        assert (a + b)[i].number < (a + b)[|a| + j].number;
      }
    }
  }

  lemma FourSplit(u: seq<Event>, f: seq<Event>, m: seq<Event>, r: seq<Event>)
    ensures Increasing(u + f + m + r) <==>
      && Increasing(u) && Increasing(f) && Increasing(m) && Increasing(r)
      && Before(u, f) && Before(u, m) && Before(u, r) && Before(f, m) && Before(f, r) && Before(m, r)
  {
    IncreasingSplits(u + f + m, r);
    IncreasingSplits(u + f, m);
    IncreasingSplits(u, f);
  }

  /** Moving a non-empty batch to the front of what lies before it breaks the order, unless nothing does. */
  lemma MovedUp(u: seq<Event>, f: seq<Event>, m: seq<Event>, r: seq<Event>)
    requires Increasing(u + f + m + r) && m != []
    ensures Increasing(u + m + f + r) <==> f == []
  {
    FourSplit(u, f, m, r);
    FourSplit(u, m, f, r);
    assert f != [] ==> m[0] in m && f[0] in f;
  }

  /** Moving back what is kept of a batch breaks the order, unless nothing is kept or nothing lies between. */
  lemma MovedBack(u: seq<Event>, m: seq<Event>, kept: seq<Event>, l: seq<Event>, r: seq<Event>)
    requires Increasing(u + m + l + r) && (forall e :: e in kept ==> e in m) && Increasing(kept)
    ensures Increasing(u + l + kept + r) <==> l == [] || kept == []
  {
    FourSplit(u, m, l, r);
    FourSplit(u, l, kept, r);
    assert l != [] && kept != [] ==> l[0] in l && kept[0] in kept;
  }

  /** A finished upload keeps the line in order if and only if it was the oldest batch. */
  lemma UploadKeepsOrderIffOldest(s: State, i: nat)
    requires Shaped(s) && Increasing(Line(s)) && i < |s.batches|
    ensures Increasing(Line(AfterUpload(s, i))) <==> i == 0
  {
    var front, back := Concat(s.batches[..i]), Concat(s.batches[i + 1..]);
    ConcatAround(s.batches, i);
    assert Line(s) == s.uploaded + front + s.batches[i] + (back + s.buffer);
    assert Line(AfterUpload(s, i)) == s.uploaded + s.batches[i] + front + (back + s.buffer);
    MovedUp(s.uploaded, front, s.batches[i], back + s.buffer);
    if i > 0 {
      FirstOfConcat(s.batches[..i]);
    }
  }

  /** A failed upload keeps it if and only if it was the newest batch, or the buffer is full and the batch is lost. */
  lemma RequeueKeepsOrderIffNewestOrFull(s: State, i: nat)
    requires Shaped(s) && Increasing(Line(s)) && i < |s.batches|
    ensures Increasing(Line(AfterRequeue(s, i))) <==> i == |s.batches| - 1 || |s.buffer| == MAX_BUFFER
  {
    var front, back, batch := s.uploaded + Concat(s.batches[..i]), Concat(s.batches[i + 1..]), s.batches[i];
    var n := Excess(batch + s.buffer);
    var kept := batch[n..];
    ConcatAround(s.batches, i);
    assert Line(s) == front + batch + back + s.buffer;
    assert (batch + s.buffer)[n..] == kept + s.buffer;
    assert Line(AfterRequeue(s, i)) == front + back + kept + s.buffer;
    FourSplit(front, batch, back, s.buffer);
    MovedBack(front, batch, kept, back, s.buffer);
    if i < |s.batches| - 1 {
      FirstOfConcat(s.batches[i + 1..]);
    }
  }

  /** The step takes the batches in turn: the oldest is the one uploaded, the newest the one put back. */
  predicate InTurn(s: State, e: Step)
    requires Enabled(s, e)
  {
    (e.UploadSucceeds? ==> e.i == 0) && (e.UploadFails? ==> e.i == |s.batches| - 1 || |s.buffer| == MAX_BUFFER)
  }

  lemma AddKeepsLine(s: State, body: string)
    requires Shaped(s) && Increasing(Line(s))
    ensures Increasing(Line(AfterAdd(s, body)))
  {
    var front, tail := s.uploaded + Concat(s.batches), s.buffer + [Event(|s.added|, body)];
    assert front + tail == Line(s) + [Event(|s.added|, body)];
    IncreasingSplits(Line(s), [Event(|s.added|, body)]);
    DroppingKeepsOrder(front, tail, Excess(tail));
  }

  lemma SwapKeepsLine(s: State)
    ensures Line(AfterSwap(s)) == Line(s)
  {
    ConcatSplits(s.batches, [s.buffer]);
    assert Concat([s.buffer]) == s.buffer;
  }

  lemma AddKeepsShape(s: State, body: string)
    requires Shaped(s)
    ensures Shaped(AfterAdd(s, body))
  {
    assert forall x :: x in Line(AfterAdd(s, body)) ==> x in Line(s) || x == Event(|s.added|, body);
  }

  lemma RequeueKeepsShape(s: State, i: nat)
    requires Shaped(s) && i < |s.batches|
    ensures Shaped(AfterRequeue(s, i))
  {
    ConcatAround(s.batches, i);
    assert forall x :: x in Line(AfterRequeue(s, i)) ==> x in Line(s);
  }

  lemma UploadKeepsShape(s: State, i: nat)
    requires Shaped(s) && i < |s.batches|
    ensures Shaped(AfterUpload(s, i))
  {
    ConcatAround(s.batches, i);
    assert forall x :: x in Line(AfterUpload(s, i)) ==> x in Line(s);
  }

  lemma StepKeepsShape(s: State, e: Step)
    requires Shaped(s) && Enabled(s, e)
    ensures Shaped(Apply(s, e))
  {
    match e
    case Add(body) => AddKeepsShape(s, body);
    case Swap => SwapKeepsLine(s);
    case UploadSucceeds(i) => UploadKeepsShape(s, i);
    case UploadFails(i) => RequeueKeepsShape(s, i);
  }

  /** Any step keeps the line in order if and only if it takes the batches in turn. */
  lemma StepKeepsLineIffInTurn(s: State, e: Step)
    requires Shaped(s) && Increasing(Line(s)) && Enabled(s, e)
    ensures Increasing(Line(Apply(s, e))) <==> InTurn(s, e)
  {
    match e
    case Add(body) => AddKeepsLine(s, body);
    case Swap => SwapKeepsLine(s);
    case UploadSucceeds(i) => UploadKeepsOrderIffOldest(s, i);
    case UploadFails(i) => RequeueKeepsOrderIffNewestOrFull(s, i);
  }

  ghost predicate AllInOrder(trace: seq<State>) {
    forall i :: 0 <= i < |trace| ==> Increasing(Line(trace[i]))
  }

  ghost predicate AllInTurn(trace: seq<State>, steps: seq<Step>)
    requires IsRun(trace, steps)
  {
    forall i :: 0 <= i < |steps| ==> InTurn(trace[i], steps[i])
  }

  lemma LastOfTheRun(trace: seq<State>, steps: seq<Step>)
    requires IsRun(trace, steps) && steps != []
    ensures var n := |steps| - 1;
      && IsRun(trace[..n + 1], steps[..n])
      && (AllInOrder(trace) <==> AllInOrder(trace[..n + 1]) && Increasing(Line(trace[n + 1])))
      && (AllInTurn(trace, steps) <==> AllInTurn(trace[..n + 1], steps[..n]) && InTurn(trace[n], steps[n]))
      && (AllInOrder(trace[..n + 1]) ==> Increasing(Line(trace[n])))
  {
    var n := |steps| - 1;
    var earlier, fewer := trace[..n + 1], steps[..n];
    assert IsRun(earlier, fewer);
    assert earlier[n] == trace[n];
    assert trace == earlier + [trace[n + 1]] && steps == fewer + [steps[n]];
  }

  /**
   With any number of flushes at once, uploaded followed by the batches and the buffer stays in
   the order of the adds through a run if and only if every flush ends in turn.
   */
  lemma {:induction false} RunsStayInOrderIffInTurn(trace: seq<State>, steps: seq<Step>)
    requires IsRun(trace, steps)
    ensures Shaped(trace[|steps|])
    ensures AllInOrder(trace) <==> AllInTurn(trace, steps)
  {
    if steps == [] {
      assert Line(trace[0]) == [];
    } else {
      var n := |steps| - 1;
      LastOfTheRun(trace, steps);
      RunsStayInOrderIffInTurn(trace[..n + 1], steps[..n]);
      StepKeepsShape(trace[n], steps[n]);
      if Increasing(Line(trace[n])) {
        StepKeepsLineIffInTurn(trace[n], steps[n]);
      }
    }
  }

  /** Two flushes at once can upload out of order: the first batch fails after the second has gone up. */
  lemma TwoFlushersReorder(first: string, second: string)
    ensures
      var e0, e1 := Event(0, first), Event(1, second);
      var s2 := AfterSwap(AfterAdd(AfterSwap(AfterAdd(EMPTY, first)), second));
      var s3 := AfterRequeue(AfterUpload(s2, 1), 0);
      && s2 == State([e0, e1], [], [[e0], [e1]], [], [])
      && AfterUpload(AfterSwap(s3), 0).uploaded == [e1, e0]
  {
    var e0, e1 := Event(0, first), Event(1, second);
    var s1 := AfterSwap(AfterAdd(EMPTY, first));
    assert s1 == State([e0], [], [[e0]], [], []);
    var s2 := AfterSwap(AfterAdd(s1, second));
    assert s2 == State([e0, e1], [], [[e0], [e1]], [], []);
    var up := AfterUpload(s2, 1);
    assert Without(s2.batches, 1) == [[e0]];
    assert up == State([e0, e1], [], [[e0]], [e1], []);
    var s3 := AfterRequeue(up, 0);
    assert s3 == State([e0, e1], [e0], [], [e1], []);
  }

  // ---------------------------------------------------------------- the object

  class S3EventSink {
    const flushMax: nat
    var buffer: seq<Event>
    ghost var added: seq<Event>
    var uploaded: seq<Event>
    ghost var dropped: seq<Event>

    constructor (flushMax: nat)
      ensures Now() == EMPTY && this.flushMax == flushMax
    {
      this.flushMax := flushMax;
      buffer, uploaded, added, dropped := [], [], [], [];
    }

    ghost function Now(): State
      reads this
    {
      State(added, buffer, [], uploaded, dropped)
    }

    /** Uploads the buffer; on failure the batch goes back in front.  Returns how many were sent. */
    method Flush(uploadSucceeds: bool) returns (sent: nat)
      modifies this`buffer, this`uploaded, this`dropped
      ensures Now() == Flushed(old(Now()), uploadSucceeds)
      ensures sent == if uploadSucceeds then |old(buffer)| else 0
      ensures uploadSucceeds ==> uploaded == old(uploaded) + old(buffer) && buffer == [] && dropped == old(dropped)
      ensures !uploadSucceeds ==> uploaded == old(uploaded) && dropped + buffer == old(dropped) + old(buffer)
      ensures !uploadSucceeds ==> |buffer| == if |old(buffer)| > MAX_BUFFER then MAX_BUFFER else |old(buffer)|
    {
      if buffer == [] {
        return 0;
      }
      var batch := buffer;
      buffer := [];
      if uploadSucceeds {
        uploaded := uploaded + batch;
        return |batch|;
      }
      buffer := batch + buffer;
      if |buffer| > MAX_BUFFER {
        dropped := dropped + buffer[..|buffer| - MAX_BUFFER];
        buffer := buffer[|buffer| - MAX_BUFFER..];
      }
      return 0;
    }

    /**
     Adds one event and flushes when the threshold is reached; a failed upload never reaches
     the caller.  Only what exceeds the bound is dropped, and a failed flush leaves the rest
     where it was.
     */
    method Add(number: nat, body: string, uploadSucceeds: bool)
      requires number == |added|
      modifies this`buffer, this`added, this`uploaded, this`dropped
      ensures Now() ==
        var s := AfterAdd(old(Now()), body);
        if |s.buffer| >= flushMax then Flushed(s, uploadSucceeds) else s
      ensures added == old(added) + [Event(number, body)]
      ensures var held := old(buffer) + [Event(number, body)];
        var lost := if |held| > MAX_BUFFER then |held| - MAX_BUFFER else 0;
        && dropped == old(dropped) + held[..lost]
        && if |held| - lost >= flushMax && uploadSucceeds then buffer == [] && uploaded == old(uploaded) + held[lost..]
           else buffer == held[lost..] && uploaded == old(uploaded)
    {
      added := added + [Event(number, body)];
      buffer := buffer + [Event(number, body)];
      if |buffer| > MAX_BUFFER {
        dropped := dropped + buffer[..|buffer| - MAX_BUFFER];
        buffer := buffer[|buffer| - MAX_BUFFER..];
      }
      if |buffer| >= flushMax {
        var _ := Flush(uploadSucceeds);
      }
    }
  }

  /** A whole flush without interference. */
  function Flushed(s: State, uploadSucceeds: bool): State
    requires s.batches == []
  {
    if s.buffer == [] then s
    else if uploadSucceeds then AfterUpload(AfterSwap(s), 0)
    else AfterRequeue(AfterSwap(s), 0)
  }
}
