/** service/waterhistory/store.go, groupMarkers: events sorted in place, then grouped for display. */
module WaterMarkers {
  import opened WaterLevels

  predicate SortedTo(s: seq<Event>, n: nat)
    requires n <= |s|
  {
    forall i, j :: 0 <= i < n && i < j < |s| ==> s[i].at <= s[j].at
  }

  /** Position `i` is no later than those up to `j`. */
  predicate LeastTo(s: seq<Event>, i: nat, j: nat)
    requires i < |s| && j <= |s|
  {
    forall k :: i < k < j ==> s[i].at <= s[k].at
  }

  function Swap(s: seq<Event>, i: nat, j: nat): seq<Event>
    requires i < |s| && j < |s|
  {
    s[i := s[j]][j := s[i]]
  }

  lemma SwapKeeps(s: seq<Event>, i: nat, j: nat)
    requires i < j < |s| && SortedTo(s, i) && LeastTo(s, i, j) && s[j].at < s[i].at
    ensures SortedTo(Swap(s, i, j), i) && LeastTo(Swap(s, i, j), i, j + 1) && multiset(Swap(s, i, j)) == multiset(s)
  {
  }

  /** The source's exchange sort: swap whenever a later event is earlier. */
  method SortEvents(events: array<Event>)
    modifies events
    ensures SortedTo(events[..], events.Length) && multiset(events[..]) == multiset(old(events[..]))
  {
    for i := 0 to events.Length
      invariant SortedTo(events[..], i) && multiset(events[..]) == multiset(old(events[..]))
    {
      for j := i + 1 to events.Length
        invariant SortedTo(events[..], i) && LeastTo(events[..], i, j)
        invariant multiset(events[..]) == multiset(old(events[..]))
      {
        ghost var before := events[..];
        if events[j].at < events[i].at {
          SwapKeeps(before, i, j);
          events[i], events[j] := events[j], events[i];
          assert events[..] == Swap(before, i, j);
        }
      }
    }
  }

  datatype Marker = Marker(at: int, events: seq<Event>)

  function Flatten(markers: seq<Marker>): seq<Event> {
    if markers == [] then [] else Flatten(markers[..|markers| - 1]) + markers[|markers| - 1].events
  }

  /** An event joins the last marker when it follows closely and concerns another tank than the marker's first. */
  predicate Joins(m: Marker, e: Event, window: int)
    requires m.events != []
  {
    e.at - m.at <= window && e.tank != m.events[0].tank
  }

  /** A marker is stamped with its last event and every event after the first joined it. */
  predicate IsMarker(m: Marker, window: int) {
    && m.events != [] && m.at == m.events[|m.events| - 1].at
    && forall i :: 1 <= i < |m.events| ==>
         m.events[i].at - m.events[i - 1].at <= window && m.events[i].tank != m.events[0].tank
  }

  predicate Apart(before: Marker, m: Marker, window: int)
    requires before.events != [] && m.events != []
  {
    m.events[0].at - before.events[|before.events| - 1].at > window || m.events[0].tank == before.events[0].tank
  }

  /** Markers are as long as they can be: the next marker's first event did not join. */
  predicate Grouped(markers: seq<Marker>, window: int) {
    && (forall k :: 0 <= k < |markers| ==> IsMarker(markers[k], window))
    && forall k :: 1 <= k < |markers| ==> Apart(markers[k - 1], markers[k], window)
  }

  lemma Extended(m: Marker, e: Event, window: int)
    requires IsMarker(m, window) && Joins(m, e, window)
    ensures IsMarker(Marker(e.at, m.events + [e]), window)
  {
    var events := m.events + [e];
    assert forall i :: 0 <= i < |m.events| ==> events[i] == m.events[i];
  }

  lemma {:induction false} FlattenGrown(markers: seq<Marker>, grown: Marker, e: Event)
    requires markers != [] && grown.events == markers[|markers| - 1].events + [e]
    ensures Flatten(markers[..|markers| - 1] + [grown]) == Flatten(markers) + [e]
  {
    assert (markers[..|markers| - 1] + [grown])[..|markers| - 1] == markers[..|markers| - 1];
  }

  lemma {:induction false} GroupedGrown(markers: seq<Marker>, e: Event, window: int)
    requires markers != [] && Grouped(markers, window) && markers[|markers| - 1].events != []
    requires Joins(markers[|markers| - 1], e, window)
    ensures Grouped(markers[..|markers| - 1] + [Marker(e.at, markers[|markers| - 1].events + [e])], window)
  {
    Extended(markers[|markers| - 1], e, window);
  }

  lemma {:induction false} GroupedMore(markers: seq<Marker>, e: Event, window: int)
    requires Grouped(markers, window)
    requires markers != [] ==> markers[|markers| - 1].events != [] && !Joins(markers[|markers| - 1], e, window)
    ensures Grouped(markers + [Marker(e.at, [e])], window)
    ensures Flatten(markers + [Marker(e.at, [e])]) == Flatten(markers) + [e]
  {
    assert (markers + [Marker(e.at, [e])])[..|markers|] == markers;
  }

  /** Every event appears in exactly one marker, in time order, and each marker is as long as the rule allows. */
  method GroupMarkers(events: array<Event>, window: int) returns (markers: seq<Marker>)
    modifies events
    ensures SortedTo(events[..], events.Length) && multiset(events[..]) == multiset(old(events[..]))
    ensures Flatten(markers) == events[..] && Grouped(markers, window)
  {
    SortEvents(events);
    markers := GroupSorted(events[..], window);
  }

  method GroupSorted(events: seq<Event>, window: int) returns (markers: seq<Marker>)
    requires SortedTo(events, |events|)
    ensures Flatten(markers) == events && Grouped(markers, window)
  {
    markers := [];
    for i := 0 to |events|
      invariant Flatten(markers) == events[..i] && Grouped(markers, window)
      invariant i == 0 ==> markers == []
      invariant i > 0 ==>
        markers != [] && markers[|markers| - 1].at == events[i - 1].at && markers[|markers| - 1].events != []
    {
      var e, last := events[i], |markers| - 1;
      assert events[..i + 1] == events[..i] + [e];
      if last >= 0 && Joins(markers[last], e, window) {
        GroupedGrown(markers, e, window);
        var at := if e.at > markers[last].at then e.at else markers[last].at;
        assert at == e.at;
        var grown := Marker(at, markers[last].events + [e]);
        FlattenGrown(markers, grown, e);
        markers := markers[..last] + [grown];
      } else {
        GroupedMore(markers, e, window);
        markers := markers + [Marker(e.at, [e])];
      }
    }
    assert events[..|events|] == events;
  }
}
