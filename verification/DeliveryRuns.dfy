/** Runs of the delivery protocol from any state. */
module DeliveryRuns {
  import opened Delivery
  import opened Ingest
  import opened Measurements

  ghost predicate Reaches(c: Config, d: State, events: seq<Event>, e: State)
    decreases |events|
  {
    if events == [] then d == e
    else Enabled(c, d, events[0]) && Reaches(c, Next(c, d, events[0]), events[1..], e)
  }

  ghost predicate Leads(c: Config, d: State, e: State) {
    exists events :: Reaches(c, d, events, e)
  }

  lemma Stays(c: Config, d: State)
    ensures Leads(c, d, d)
  {
    assert Reaches(c, d, [], d);
  }

  lemma Happens(c: Config, d: State, event: Event)
    requires Enabled(c, d, event)
    ensures Leads(c, d, Next(c, d, event))
  {
    hide Enabled, Next;
    var none: seq<Event> := [];
    assert [event][1..] == none;
    assert Reaches(c, d, [event], Next(c, d, event));
  }

  lemma {:induction false} ReachesOn(c: Config, d: State, first: seq<Event>, e: State,
                                     second: seq<Event>, f: State)
    requires Reaches(c, d, first, e) && Reaches(c, e, second, f)
    ensures Reaches(c, d, first + second, f)
    decreases |first|
  {
    hide Enabled, Next;
    if first == [] {
      assert first + second == second;
    } else {
      assert (first + second)[1..] == first[1..] + second;
      ReachesOn(c, Next(c, d, first[0]), first[1..], e, second, f);
    }
  }

  lemma GoesOn(c: Config, d: State, e: State, f: State)
    requires Leads(c, d, e) && Leads(c, e, f)
    ensures Leads(c, d, f)
  {
    hide Reaches;
    var first :| Reaches(c, d, first, e);
    var second :| Reaches(c, e, second, f);
    ReachesOn(c, d, first, e, second, f);
  }

  /** Runs from the start are the legal ones. */
  lemma {:induction false} ReachesLegally(c: Config, before: seq<Event>, events: seq<Event>, e: State)
    requires Legal(c, before) && Reaches(c, After(c, before), events, e)
    ensures Legal(c, before + events) && After(c, before + events) == e
    decreases |events|
  {
    hide Enabled, Next;
    if events == [] {
      assert before + events == before;
    } else {
      var longer := before + [events[0]];
      assert longer[..|longer| - 1] == before;
      assert longer + events[1..] == before + events;
      ReachesLegally(c, longer, events[1..], e);
    }
  }

  /** There is always another name for a post or a task. */
  lemma FreshName<T>(used: map<nat, T>) returns (p: nat)
    ensures p !in used
  {
    var left := used.Keys;
    p := 0;
    while left != {}
      invariant forall q | q in used && q !in left :: q < p
      decreases |left|
    {
      var q :| q in left;
      left := left - {q};
      if q >= p {
        p := q + 1;
      }
    }
  }

  /** A request the server accepts. */
  function GoodRequest(batch: seq<Measurement>): Request {
    Request(true, Received(0), Identity, Decoded(Batch("", PROTOCOL_VERSION, batch)), true)
  }
}
