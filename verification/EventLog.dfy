/** What became of each event handed to the event pipeline, in posting order.
    A log entry pairs an event with its fate; the pipeline's queues are projections of the log. */
module EventLog {

  datatype Event = Event(sensorHandle: int, payload: int)

  datatype Fate = Written | Pending | Dropped

  datatype Entry = Entry(event: Event, fate: Fate)

  function Tag(events: seq<Event>, fate: Fate): (log: seq<Entry>)
    ensures |log| == |events|
  {
    if events == [] then [] else [Entry(events[0], fate)] + Tag(events[1..], fate)
  }

  function Events(log: seq<Entry>): (events: seq<Event>)
    ensures |events| == |log|
  {
    if log == [] then [] else [log[0].event] + Events(log[1..])
  }

  /** The events of the log that met the given fate, in posting order. */
  function Project(log: seq<Entry>, fate: Fate): (events: seq<Event>)
    ensures |events| <= |log|
  {
    if log == [] then []
    else if log[0].fate == fate then [log[0].event] + Project(log[1..], fate)
    else Project(log[1..], fate)
  }

  /** The first n pending entries meet the fate f. */
  function Resolve(log: seq<Entry>, n: nat, f: Fate): (result: seq<Entry>)
    ensures |result| == |log|
  {
    if log == [] || n == 0 then log
    else if log[0].fate == Pending then [Entry(log[0].event, f)] + Resolve(log[1..], n - 1, f)
    else [log[0]] + Resolve(log[1..], n, f)
  }

  /** No event was written while one posted before it was still pending. */
  predicate Ordered(log: seq<Entry>) {
    log == [] || ((log[0].fate == Pending ==> Project(log[1..], Written) == []) && Ordered(log[1..]))
  }

  predicate IsSubsequence(a: seq<Event>, b: seq<Event>) {
    a == [] || (b != [] && ((a[0] == b[0] && IsSubsequence(a[1..], b[1..])) || IsSubsequence(a, b[1..])))
  }

  lemma {:induction false} ProjectIsSubsequence(log: seq<Entry>, f: Fate)
    ensures IsSubsequence(Project(log, f), Events(log))
  {
    if log != [] {
      ProjectIsSubsequence(log[1..], f);
      assert Events(log)[1..] == Events(log[1..]);
      if log[0].fate == f {
        assert Project(log, f)[1..] == Project(log[1..], f);
      }
    }
  }

  /** Every event of the log has exactly one fate, counted with multiplicity. */
  lemma {:induction false} FatesPartition(log: seq<Entry>)
    ensures multiset(Events(log))
         == multiset(Project(log, Written)) + multiset(Project(log, Pending)) + multiset(Project(log, Dropped))
  {
    if log != [] {
      FatesPartition(log[1..]);
    }
  }

  lemma EventsCons(e: Entry, rest: seq<Entry>)
    ensures Events([e] + rest) == [e.event] + Events(rest)
  {
    assert ([e] + rest)[1..] == rest;
  }

  lemma EventsAppendStep(e: Entry, a: seq<Entry>, b: seq<Entry>)
    requires Events(a + b) == Events(a) + Events(b)
    ensures Events([e] + a + b) == Events([e] + a) + Events(b)
  {
    hide Events;
    assert [e] + a + b == [e] + (a + b);
    EventsCons(e, a + b);
    EventsCons(e, a);
  }

  lemma {:induction false} EventsAppend(a: seq<Entry>, b: seq<Entry>)
    ensures Events(a + b) == Events(a) + Events(b)
  {
    if a == [] {
      assert a + b == b;
    } else {
      EventsAppend(a[1..], b);
      EventsAppendStep(a[0], a[1..], b);
      assert a == [a[0]] + a[1..];
    }
  }

  lemma ProjectCons(e: Entry, rest: seq<Entry>, f: Fate)
    ensures Project([e] + rest, f) == (if e.fate == f then [e.event] else []) + Project(rest, f)
  {
    assert ([e] + rest)[1..] == rest;
  }

  lemma ProjectAppendStep(e: Entry, a: seq<Entry>, b: seq<Entry>, f: Fate)
    requires Project(a + b, f) == Project(a, f) + Project(b, f)
    ensures Project([e] + a + b, f) == Project([e] + a, f) + Project(b, f)
  {
    hide Project;
    assert [e] + a + b == [e] + (a + b);
    ProjectCons(e, a + b, f);
    ProjectCons(e, a, f);
  }

  lemma {:induction false} ProjectAppend(a: seq<Entry>, b: seq<Entry>, f: Fate)
    ensures Project(a + b, f) == Project(a, f) + Project(b, f)
  {
    if a == [] {
      assert a + b == b;
    } else {
      ProjectAppend(a[1..], b, f);
      ProjectAppendStep(a[0], a[1..], b, f);
      assert a == [a[0]] + a[1..];
    }
  }

  lemma {:induction false} TagEvents(events: seq<Event>, fate: Fate)
    ensures Events(Tag(events, fate)) == events
    ensures forall f :: Project(Tag(events, fate), f) == if f == fate then events else []
    ensures Ordered(Tag(events, fate))
  {
    if events != [] {
      TagEvents(events[1..], fate);
      assert Tag(events, fate)[1..] == Tag(events[1..], fate);
    }
  }

  lemma {:induction false} OrderedAppend(a: seq<Entry>, b: seq<Entry>)
    requires Ordered(a) && Ordered(b)
    requires Project(a, Pending) == [] || Project(b, Written) == []
    ensures Ordered(a + b)
  {
    if a == [] {
      assert a + b == b;
    } else {
      OrderedAppend(a[1..], b);
      assert (a + b)[1..] == a[1..] + b;
      ProjectAppend(a[1..], b, Written);
    }
  }

  lemma {:induction false} ResolveEvents(log: seq<Entry>, n: nat, f: Fate)
    ensures Events(Resolve(log, n, f)) == Events(log)
  {
    if log != [] && n != 0 {
      ResolveEvents(log[1..], if log[0].fate == Pending then n - 1 else n, f);
    }
  }

  lemma {:induction false} ResolvePending(log: seq<Entry>, n: nat, f: Fate)
    requires f != Pending && n <= |Project(log, Pending)|
    ensures Project(Resolve(log, n, f), Pending) == Project(log, Pending)[n..]
  {
    if log != [] && n != 0 {
      ResolvePending(log[1..], if log[0].fate == Pending then n - 1 else n, f);
    }
  }

  lemma {:induction false} ResolveDropped(log: seq<Entry>, n: nat)
    requires Ordered(log)
    ensures Project(Resolve(log, n, Dropped), Written) == Project(log, Written)
    ensures Ordered(Resolve(log, n, Dropped))
  {
    if log != [] && n != 0 {
      ResolveDropped(log[1..], if log[0].fate == Pending then n - 1 else n);
    }
  }

  /** Writing the n oldest pending events extends the written sequence by exactly them:
      this is where order depends on no later event having been written already. */
  lemma {:induction false} ResolveWritten(log: seq<Entry>, n: nat)
    requires Ordered(log) && n <= |Project(log, Pending)|
    ensures Project(Resolve(log, n, Written), Written) == Project(log, Written) + Project(log, Pending)[..n]
    ensures Ordered(Resolve(log, n, Written))
  {
    if log != [] && n != 0 {
      ResolveWritten(log[1..], if log[0].fate == Pending then n - 1 else n);
    }
  }

  lemma {:induction false} NothingDropped(log: seq<Entry>)
    requires Ordered(log) && Project(log, Dropped) == []
    ensures Events(log) == Project(log, Written) + Project(log, Pending)
  {
    if log != [] {
      NothingDropped(log[1..]);
    }
  }
}
