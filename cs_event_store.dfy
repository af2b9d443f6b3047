/**
 * The in-memory event store of the root project (`InMemoryEventStore`): a dictionary from stream
 * id to the stream's serialized events, and a global sequence that numbers every appended event.
 * The serializer is abstract: an event is stored with its type name, and a read gives it back
 * exactly when the type mapping knows that name.
 */
module CsEventStore {
  import opened Wrappers
  import opened OrderedMap
  import opened CsEvents

  /** `SerializedEvent`; the JSON payload is the event itself. */
  datatype SerializedEvent = SerializedEvent(globalPosition: int, eventType: string, data: Event)

  function Serialize(position: int, e: Event): SerializedEvent {
    SerializedEvent(position, TypeName(e), e)
  }

  /** `Deserialize(...).Where(e => e != null)`: the events whose type name the mapping knows, in order. */
  function Known(knownTypes: set<string>, s: seq<SerializedEvent>): (r: seq<Event>)
    ensures forall e | e in r :: exists x | x in s :: x.data == e && x.eventType in knownTypes
    decreases |s|
  {
    if s == [] then []
    else
      var n := |s| - 1;
      Known(knownTypes, s[..n]) + (if s[n].eventType in knownTypes then [s[n].data] else [])
  }

  lemma {:induction false} KnownAppend(knownTypes: set<string>, a: seq<SerializedEvent>, b: seq<SerializedEvent>)
    ensures Known(knownTypes, a + b) == Known(knownTypes, a) + Known(knownTypes, b)
    decreases |b|
  {
    if b == [] {
      assert a + b == a;
    } else {
      var n := |b| - 1;
      assert (a + b)[..|a + b| - 1] == a + b[..n];
      KnownAppend(knownTypes, a, b[..n]);
    }
  }

  // ----- Ordering by position -----

  predicate SortedByPosition(s: seq<SerializedEvent>) {
    forall i, j | 0 <= i < j < |s| :: s[i].globalPosition <= s[j].globalPosition
  }

  predicate Increasing(s: seq<SerializedEvent>) {
    forall i, j | 0 <= i < j < |s| :: s[i].globalPosition < s[j].globalPosition
  }

  /** Puts `x` after every entry whose position is not larger, keeping equal positions in order. */
  function InsertAfter(t: seq<SerializedEvent>, x: SerializedEvent): seq<SerializedEvent>
    decreases |t|
  {
    if t == [] then [x]
    else
      var n := |t| - 1;
      if t[n].globalPosition <= x.globalPosition then t + [x]
      else InsertAfter(t[..n], x) + [t[n]]
  }

  lemma SortedSnoc(s: seq<SerializedEvent>, y: SerializedEvent)
    requires SortedByPosition(s) && forall z | z in s :: z.globalPosition <= y.globalPosition
    ensures SortedByPosition(s + [y])
  {
    var t := s + [y];
    forall i, j | 0 <= i < j < |t| ensures t[i].globalPosition <= t[j].globalPosition {
      assert t[i] == s[i];
      if j < |s| {
        assert t[j] == s[j];
      } else {
        assert s[i] in s;
      }
    }
  }

  /** Inserting keeps every entry and adds `x`. */
  lemma {:induction false} InsertAfterMultiset(t: seq<SerializedEvent>, x: SerializedEvent)
    ensures multiset(InsertAfter(t, x)) == multiset(t) + multiset{x}
    decreases |t|
  {
    if t != [] {
      var n := |t| - 1;
      assert t == t[..n] + [t[n]];
      if t[n].globalPosition > x.globalPosition {
        InsertAfterMultiset(t[..n], x);
      }
    }
  }

  /** Inserting into a sequence in position order keeps it in position order. */
  lemma {:induction false} InsertAfterSorted(t: seq<SerializedEvent>, x: SerializedEvent)
    requires SortedByPosition(t)
    ensures SortedByPosition(InsertAfter(t, x))
    decreases |t|
  {
    if t != [] {
      var n := |t| - 1;
      if t[n].globalPosition <= x.globalPosition {
        forall z | z in t ensures z.globalPosition <= x.globalPosition {
          var i :| 0 <= i < |t| && t[i] == z;
        }
        SortedSnoc(t, x);
      } else {
        var front := InsertAfter(t[..n], x);
        assert SortedByPosition(t[..n]);
        InsertAfterSorted(t[..n], x);
        InsertAfterMultiset(t[..n], x);
        forall z | z in front ensures z.globalPosition <= t[n].globalPosition {
          assert z in multiset(front);
          if z != x {
            var i :| 0 <= i < n && t[..n][i] == z;
            assert t[i] == z;
          }
        }
        SortedSnoc(front, t[n]);
      }
    }
  }

  lemma InsertAfterFacts(t: seq<SerializedEvent>, x: SerializedEvent)
    ensures multiset(InsertAfter(t, x)) == multiset(t) + multiset{x}
    ensures SortedByPosition(t) ==> SortedByPosition(InsertAfter(t, x))
  {
    InsertAfterMultiset(t, x);
    if SortedByPosition(t) {
      InsertAfterSorted(t, x);
    }
  }

  /** `OrderBy(e => e.GlobalPosition)`: a stable sort by position. */
  function SortByPosition(s: seq<SerializedEvent>): seq<SerializedEvent>
    decreases |s|
  {
    if s == [] then [] else InsertAfter(SortByPosition(s[..|s| - 1]), s[|s| - 1])
  }

  /** Sorting keeps the entries and puts them in position order. */
  lemma {:induction false} SortByPositionFacts(s: seq<SerializedEvent>)
    ensures multiset(SortByPosition(s)) == multiset(s)
    ensures SortedByPosition(SortByPosition(s))
    decreases |s|
  {
    if s != [] {
      var n := |s| - 1;
      assert s == s[..n] + [s[n]];
      SortByPositionFacts(s[..n]);
      InsertAfterFacts(SortByPosition(s[..n]), s[n]);
    }
  }

  lemma SortedPrefix(s: seq<SerializedEvent>, n: nat)
    requires n <= |s| && SortedByPosition(s)
    ensures SortedByPosition(s[..n])
  {
    var front := s[..n];
    forall i, j | 0 <= i < j < n ensures front[i].globalPosition <= front[j].globalPosition {
      assert front[i] == s[i] && front[j] == s[j];
    }
  }

  /** An entry whose position is not below the last one's goes at the end. */
  lemma InsertAfterLast(t: seq<SerializedEvent>, x: SerializedEvent)
    requires t == [] || t[|t| - 1].globalPosition <= x.globalPosition
    ensures InsertAfter(t, x) == t + [x]
  {
  }

  /** Sorting what is already in position order changes nothing. */
  lemma {:induction false} SortSortedIsIdentity(s: seq<SerializedEvent>)
    requires SortedByPosition(s)
    ensures SortByPosition(s) == s
    decreases |s|
  {
    if s != [] {
      var n := |s| - 1;
      var front := s[..n];
      SortedPrefix(s, n);
      SortSortedIsIdentity(front);
      if n > 0 {
        assert front[n - 1] == s[n - 1];
      }
      InsertAfterLast(front, s[n]);
      assert s == front + [s[n]];
    }
  }

  lemma SortedTail(a: seq<SerializedEvent>)
    requires a != [] && SortedByPosition(a)
    ensures SortedByPosition(a[1..])
  {
    forall p, q | 0 <= p < q < |a| - 1 ensures a[1..][p].globalPosition <= a[1..][q].globalPosition {
      assert a[1..][p] == a[p + 1] && a[1..][q] == a[q + 1];
    }
  }

  lemma IncreasingTail(b: seq<SerializedEvent>)
    requires b != [] && Increasing(b)
    ensures Increasing(b[1..])
  {
    forall p, q | 0 <= p < q < |b| - 1 ensures b[1..][p].globalPosition < b[1..][q].globalPosition {
      assert b[1..][p] == b[p + 1] && b[1..][q] == b[q + 1];
    }
  }

  /** Both start with the entry of least position. */
  lemma SameHead(a: seq<SerializedEvent>, b: seq<SerializedEvent>)
    requires a != [] && b != []
    requires SortedByPosition(a) && Increasing(b) && multiset(a) == multiset(b)
    ensures a[0] == b[0]
  {
    assert a[0] in multiset(b);
    var j :| 0 <= j < |b| && b[j] == a[0];
    assert b[0] in multiset(a);
    var i :| 0 <= i < |a| && a[i] == b[0];
    assert a[0].globalPosition <= a[i].globalPosition;
  }

  /** A sequence in position order is determined by its elements when the positions are distinct. */
  lemma {:induction false} SortedUnique(a: seq<SerializedEvent>, b: seq<SerializedEvent>)
    requires SortedByPosition(a) && Increasing(b) && multiset(a) == multiset(b)
    ensures a == b
    decreases |a|
  {
    assert |a| == |multiset(a)| == |multiset(b)| == |b|;
    if a != [] {
      SameHead(a, b);
      assert a == [a[0]] + a[1..] && b == [b[0]] + b[1..];
      assert multiset(a) == multiset{a[0]} + multiset(a[1..]);
      assert multiset(b) == multiset{b[0]} + multiset(b[1..]);
      SortedTail(a);
      IncreasingTail(b);
      assert multiset(a[1..]) == multiset(a) - multiset{a[0]};
      assert multiset(b[1..]) == multiset(b) - multiset{b[0]};
      SortedUnique(a[1..], b[1..]);
    }
  }

  // ----- The log of appends -----

  /** The entries of the log that were appended to stream `k`, in order. */
  function StreamOf(log: seq<SerializedEvent>, owner: seq<string>, k: string): (r: seq<SerializedEvent>)
    requires |log| == |owner|
    ensures forall x | x in r :: x in log
    decreases |log|
  {
    if log == [] then []
    else
      var n := |log| - 1;
      StreamOf(log[..n], owner[..n], k) + (if owner[n] == k then [log[n]] else [])
  }

  lemma {:induction false} StreamOfAppend(log: seq<SerializedEvent>, owner: seq<string>, l: seq<SerializedEvent>, o: seq<string>, k: string)
    requires |log| == |owner| && |l| == |o|
    ensures StreamOf(log + l, owner + o, k) == StreamOf(log, owner, k) + StreamOf(l, o, k)
    decreases |l|
  {
    if l == [] {
      assert log + l == log && owner + o == owner;
    } else {
      var n := |l| - 1;
      assert (log + l)[..|log + l| - 1] == log + l[..n];
      assert (owner + o)[..|owner + o| - 1] == owner + o[..n];
      StreamOfAppend(log, owner, l[..n], o[..n], k);
    }
  }

  lemma {:induction false} StreamOfAbsent(log: seq<SerializedEvent>, owner: seq<string>, k: string)
    requires |log| == |owner| && k !in owner
    ensures StreamOf(log, owner, k) == []
    decreases |log|
  {
    if log != [] {
      var n := |log| - 1;
      assert owner[n] in owner;
      assert forall y | y in owner[..n] :: y in owner;
      StreamOfAbsent(log[..n], owner[..n], k);
    }
  }

  lemma {:induction false} StreamOfOthers(log: seq<SerializedEvent>, owner: seq<string>, o: seq<string>, l: seq<SerializedEvent>, k: string, streamId: string)
    requires |l| == |o| && |log| == |owner| && k != streamId && forall i | 0 <= i < |o| :: o[i] == streamId
    ensures StreamOf(log + l, owner + o, k) == StreamOf(log, owner, k)
  {
    StreamOfAppend(log, owner, l, o, k);
    StreamOfAbsent(l, o, k);
  }

  lemma {:induction false} StreamOfOwn(l: seq<SerializedEvent>, o: seq<string>, streamId: string)
    requires |l| == |o| && forall i | 0 <= i < |o| :: o[i] == streamId
    ensures StreamOf(l, o, streamId) == l
    decreases |l|
  {
    if l != [] {
      var n := |l| - 1;
      StreamOfOwn(l[..n], o[..n], streamId);
      assert l == l[..n] + [l[n]];
    }
  }

  /** Positions 1, 2, 3, … in append order. */
  predicate Numbered(log: seq<SerializedEvent>) {
    forall i | 0 <= i < |log| :: log[i].globalPosition == i + 1
  }

  lemma NumberedIncreasing(log: seq<SerializedEvent>)
    requires Numbered(log)
    ensures Increasing(log)
  {
  }

  /** Every stream is in position order, since it is a part of the numbered log. */
  lemma {:induction false} StreamOfIncreasing(log: seq<SerializedEvent>, owner: seq<string>, k: string)
    requires |log| == |owner| && Numbered(log)
    ensures Increasing(StreamOf(log, owner, k))
    decreases |log|
  {
    if log != [] {
      var n := |log| - 1;
      assert Numbered(log[..n]);
      StreamOfIncreasing(log[..n], owner[..n], k);
      var front := StreamOf(log[..n], owner[..n], k);
      forall x | x in front ensures x.globalPosition < log[n].globalPosition {
        var i :| 0 <= i < n && log[..n][i] == x;
      }
    }
  }

  /** `events.Values.SelectMany(stream => stream)`: the streams one after the other, in dictionary order. */
  function Concat(m: seq<(string, seq<SerializedEvent>)>): seq<SerializedEvent>
    decreases |m|
  {
    if m == [] then [] else Concat(m[..|m| - 1]) + m[|m| - 1].1
  }

  /** The streams of the given ids from the log, one after the other. */
  function ConcatOf(ks: seq<string>, log: seq<SerializedEvent>, owner: seq<string>): seq<SerializedEvent>
    requires |log| == |owner|
    decreases |ks|
  {
    if ks == [] then [] else ConcatOf(ks[..|ks| - 1], log, owner) + StreamOf(log, owner, ks[|ks| - 1])
  }

  lemma {:induction false} ConcatIsConcatOf(m: seq<(string, seq<SerializedEvent>)>, log: seq<SerializedEvent>, owner: seq<string>)
    requires |log| == |owner|
    requires forall i | 0 <= i < |m| :: m[i].1 == StreamOf(log, owner, m[i].0)
    ensures Concat(m) == ConcatOf(Keys(m), log, owner)
    decreases |m|
  {
    if m != [] {
      var n := |m| - 1;
      var front := m[..n];
      assert forall i | 0 <= i < |front| :: front[i] == m[i];
      ConcatIsConcatOf(front, log, owner);
      var ks := Keys(m);
      assert |ks[..n]| == |Keys(front)|;
      assert forall i | 0 <= i < n :: ks[..n][i] == Keys(front)[i];
      assert ks[..n] == Keys(front);
      assert ks[n] == m[n].0;
      assert Concat(m) == Concat(front) + m[n].1;
      assert ConcatOf(ks, log, owner) == ConcatOf(ks[..n], log, owner) + StreamOf(log, owner, ks[n]);
    }
  }

  lemma {:induction false} ConcatOfSnoc(ks: seq<string>, log: seq<SerializedEvent>, owner: seq<string>, e: SerializedEvent, o: string)
    requires |log| == |owner|
    requires forall i, j | 0 <= i < j < |ks| :: ks[i] != ks[j]
    ensures multiset(ConcatOf(ks, log + [e], owner + [o])) ==
      multiset(ConcatOf(ks, log, owner)) + (if o in ks then multiset{e} else multiset{})
    decreases |ks|
  {
    if ks != [] {
      var n := |ks| - 1;
      ConcatOfSnoc(ks[..n], log, owner, e, o);
      assert (log + [e])[..|log|] == log && (owner + [o])[..|owner|] == owner;
      assert o in ks <==> o in ks[..n] || o == ks[n] by { assert ks == ks[..n] + [ks[n]]; }
      if o == ks[n] {
        assert o !in ks[..n];
      }
    }
  }

  /** Reading all streams back gives every logged entry exactly once. */
  lemma {:induction false} ConcatOfIsLog(ks: seq<string>, log: seq<SerializedEvent>, owner: seq<string>)
    requires |log| == |owner|
    requires forall i, j | 0 <= i < j < |ks| :: ks[i] != ks[j]
    requires forall o | o in owner :: o in ks
    ensures multiset(ConcatOf(ks, log, owner)) == multiset(log)
    decreases |log|
  {
    if log == [] {
      ConcatOfEmpty(ks, owner);
    } else {
      var n := |log| - 1;
      assert log == log[..n] + [log[n]] && owner == owner[..n] + [owner[n]];
      assert owner[n] in owner;
      ConcatOfIsLog(ks, log[..n], owner[..n]);
      ConcatOfSnoc(ks, log[..n], owner[..n], log[n], owner[n]);
    }
  }

  lemma {:induction false} ConcatOfEmpty(ks: seq<string>, owner: seq<string>)
    requires owner == []
    ensures ConcatOf(ks, [], owner) == []
    decreases |ks|
  {
    if ks != [] {
      ConcatOfEmpty(ks[..|ks| - 1], owner);
    }
  }

  /** Every stream of the dictionary holds exactly the log entries appended to it. */
  predicate StreamsMatch(events: OMap<string, seq<SerializedEvent>>, log: seq<SerializedEvent>, owner: seq<string>)
    requires |log| == |owner|
  {
    forall i | 0 <= i < |events| :: events[i].1 == StreamOf(log, owner, events[i].0)
  }

  /** Creating an empty stream for an id nothing was appended to keeps the dictionary matching the log. */
  lemma CreateKeepsStreams(events: OMap<string, seq<SerializedEvent>>, log: seq<SerializedEvent>, owner: seq<string>, streamId: string)
    requires |log| == |owner| && StreamsMatch(events, log, owner) && !Has(events, streamId) && streamId !in owner
    ensures StreamsMatch(Set(events, streamId, []), log, owner)
  {
    StreamOfAbsent(log, owner, streamId);
    var r := Set(events, streamId, []);
    assert r == events + [(streamId, [])];
    forall i | 0 <= i < |r| ensures r[i].1 == StreamOf(log, owner, r[i].0) {
      if i < |events| {
        assert r[i] == events[i];
      }
    }
  }

  /** Adding the appended entries at the end of their stream keeps the dictionary matching the longer log. */
  lemma AppendKeepsStreams(events: OMap<string, seq<SerializedEvent>>, log: seq<SerializedEvent>, owner: seq<string>,
                           streamId: string, l: seq<SerializedEvent>, o: seq<string>)
    requires |log| == |owner| && |l| == |o| && forall i | 0 <= i < |o| :: o[i] == streamId
    requires StreamsMatch(events, log, owner) && Has(events, streamId)
    ensures StreamsMatch(Set(events, streamId, Get(events, streamId).value + l), log + l, owner + o)
  {
    var r := Set(events, streamId, Get(events, streamId).value + l);
    var i0 := IndexOf(events, streamId).value;
    assert r == events[i0 := (streamId, Get(events, streamId).value + l)];
    StreamOfOwn(l, o, streamId);
    StreamOfAppend(log, owner, l, o, streamId);
    forall i | 0 <= i < |r| ensures r[i].1 == StreamOf(log + l, owner + o, r[i].0) {
      if i != i0 {
        assert r[i] == events[i];
        assert events[i].0 != streamId;
        StreamOfOthers(log, owner, o, l, r[i].0, streamId);
      }
    }
  }

  /** The new events serialized with the positions after `start`. */
  function Positioned(start: int, es: seq<Event>): (r: seq<SerializedEvent>)
    ensures |r| == |es|
    ensures forall i | 0 <= i < |es| :: r[i] == Serialize(start + i + 1, es[i])
    decreases |es|
  {
    if es == [] then [] else Positioned(start, es[..|es| - 1]) + [Serialize(start + |es|, es[|es| - 1])]
  }

  /** The stream id `n` times: the owner of each of `n` appended entries. */
  function Repeat(streamId: string, n: nat): (r: seq<string>)
    ensures |r| == n && forall i | 0 <= i < n :: r[i] == streamId
  {
    if n == 0 then [] else Repeat(streamId, n - 1) + [streamId]
  }

  lemma NumberedAppend(log: seq<SerializedEvent>, es: seq<Event>)
    requires Numbered(log)
    ensures Numbered(log + Positioned(|log|, es))
  {
  }

  /** The store invariant on values: positions 1..N in append order, every stream matching the log. */
  ghost predicate StoreInv(events: OMap<string, seq<SerializedEvent>>, globalSequence: int, log: seq<SerializedEvent>, owner: seq<string>) {
    && |log| == |owner|
    && globalSequence == |log|
    && Numbered(log)
    && (forall o | o in owner :: o in Keys(events))
    && StreamsMatch(events, log, owner)
  }

  /** The dictionary once the missing stream is created (`events[streamId] = new List`). */
  function WithStream(events: OMap<string, seq<SerializedEvent>>, streamId: string): (r: OMap<string, seq<SerializedEvent>>)
    ensures Has(r, streamId)
  {
    if Has(events, streamId) then events else Set(events, streamId, [])
  }

  lemma CreateKeepsInv(events: OMap<string, seq<SerializedEvent>>, log: seq<SerializedEvent>, owner: seq<string>, streamId: string)
    requires StoreInv(events, |log|, log, owner)
    ensures StoreInv(WithStream(events, streamId), |log|, log, owner)
  {
    if !Has(events, streamId) {
      assert streamId !in owner;
      CreateKeepsStreams(events, log, owner, streamId);
      var r := Set(events, streamId, []);
      assert Keys(r) == Keys(events) + [streamId];
      forall x | x in owner ensures x in Keys(r) {
        assert x in Keys(events);
      }
    }
  }

  lemma AppendExistingKeepsInv(events: OMap<string, seq<SerializedEvent>>, log: seq<SerializedEvent>, owner: seq<string>,
                               streamId: string, newEvents: seq<Event>)
    requires StoreInv(events, |log|, log, owner) && Has(events, streamId)
    ensures var appended := Positioned(|log|, newEvents);
      StoreInv(Set(events, streamId, Get(events, streamId).value + appended), |log| + |newEvents|,
               log + appended, owner + Repeat(streamId, |newEvents|))
  {
    var appended := Positioned(|log|, newEvents);
    var o := Repeat(streamId, |newEvents|);
    var r := Set(events, streamId, Get(events, streamId).value + appended);
    assert |log + appended| == |owner + o| == |log| + |newEvents|;
    assert StreamsMatch(r, log + appended, owner + o) by {
      AppendKeepsStreams(events, log, owner, streamId, appended, o);
    }
    assert Numbered(log + appended) by {
      NumberedAppend(log, newEvents);
    }
    assert forall x | x in owner + o :: x in Keys(r) by {
      assert Keys(r) == Keys(events);
      forall x | x in owner + o ensures x in Keys(r) {
        if x in owner {
          assert x in Keys(events);
        }
      }
    }
  }

  /** The dictionary after `AppendToStream`: the stream created when missing, then the entries added at its end. */
  function Appended(events: OMap<string, seq<SerializedEvent>>, streamId: string, appended: seq<SerializedEvent>): OMap<string, seq<SerializedEvent>> {
    var created := WithStream(events, streamId);
    Set(created, streamId, Get(created, streamId).value + appended)
  }

  /** Appending to a stream changes that stream alone, and adds its id when it was missing. */
  lemma AppendedDictionary(events: OMap<string, seq<SerializedEvent>>, streamId: string, appended: seq<SerializedEvent>)
    ensures var r := Appended(events, streamId, appended);
      && Get(r, streamId) == Some((if Has(events, streamId) then Get(events, streamId).value else []) + appended)
      && (forall k | k != streamId :: Get(r, k) == Get(events, k))
      && Keys(r) == if Has(events, streamId) then Keys(events) else Keys(events) + [streamId]
  {
  }

  /** The store invariant survives an append, for the log extended by the numbered new entries. */
  lemma AppendKeepsInv(events: OMap<string, seq<SerializedEvent>>, log: seq<SerializedEvent>, owner: seq<string>,
                       streamId: string, newEvents: seq<Event>)
    requires StoreInv(events, |log|, log, owner)
    ensures StoreInv(Appended(events, streamId, Positioned(|log|, newEvents)), |log| + |newEvents|,
                     log + Positioned(|log|, newEvents), owner + Repeat(streamId, |newEvents|))
  {
    CreateKeepsInv(events, log, owner, streamId);
    AppendExistingKeepsInv(WithStream(events, streamId), log, owner, streamId, newEvents);
  }

  class InMemoryEventStore {
    /** The dictionary from stream id to its serialized events. */
    var events: OMap<string, seq<SerializedEvent>>
    var globalSequence: int
    /** The type names the serializer's type mapping resolves. */
    const knownTypes: set<string>
    /** Every appended entry in append order, and the stream it went to. */
    ghost var log: seq<SerializedEvent>
    ghost var owner: seq<string>

    ghost predicate Valid()
      reads this
    {
      StoreInv(events, globalSequence, log, owner)
    }

    constructor (knownTypes: set<string>)
      ensures Valid()
      ensures this.knownTypes == knownTypes && events == [] && globalSequence == 0 && log == []
    {
      this.knownTypes := knownTypes;
      events := [];
      globalSequence := 0;
      log := [];
      owner := [];
    }

    /**
     * The `Select` of `AppendToStream`: every new event takes the next value of the global
     * sequence as its position.
     */
    method NumberEvents(newEvents: seq<Event>) returns (appendedEvents: seq<SerializedEvent>)
      modifies this
      ensures globalSequence == old(globalSequence) + |newEvents|
      ensures appendedEvents == Positioned(old(globalSequence), newEvents)
      ensures events == old(events) && log == old(log) && owner == old(owner)
    {
      appendedEvents := [];
      for i := 0 to |newEvents|
        invariant globalSequence == old(globalSequence) + i
        invariant appendedEvents == Positioned(old(globalSequence), newEvents[..i])
        invariant events == old(events) && log == old(log) && owner == old(owner)
      {
        globalSequence := globalSequence + 1;
        var serialized := Serialize(globalSequence, newEvents[i]);
        appendedEvents := appendedEvents + [serialized.(globalPosition := globalSequence)];
      }
      assert newEvents[..|newEvents|] == newEvents;
    }

    /**
     * Creates the stream when it is missing, numbers the new events with the next positions of
     * the global sequence and adds them at the end of the stream; no other stream changes.
     */
    method AppendToStream(streamId: string, newEvents: seq<Event>)
      requires Valid()
      modifies this
      ensures Valid()
      ensures globalSequence == old(globalSequence) + |newEvents|
      ensures log == old(log) + Positioned(old(globalSequence), newEvents)
      ensures owner == old(owner) + Repeat(streamId, |newEvents|)
      ensures events == Appended(old(events), streamId, Positioned(old(globalSequence), newEvents))
    {
      ghost var events0, log0, owner0 := events, log, owner;
      ghost var appended := Positioned(|log0|, newEvents);
      AppendKeepsInv(events0, log0, owner0, streamId, newEvents);
      if !Has(events, streamId) {
        events := Set(events, streamId, []);
      }
      assert events == WithStream(events0, streamId);
      var stream := Get(events, streamId).value;
      var appendedEvents := NumberEvents(newEvents);
      assert appendedEvents == appended;
      log := log + appendedEvents;
      owner := owner + Repeat(streamId, |newEvents|);
      events := Set(events, streamId, stream + appendedEvents);
      assert events == Appended(events0, streamId, appended);
    }

    /** The known events of one stream in position order; an unknown stream reads as empty. */
    method ReadStream(streamId: string) returns (r: seq<Event>)
      requires Valid()
      ensures r == Known(knownTypes, StreamOf(log, owner, streamId))
      ensures !Has(events, streamId) ==> r == []
    {
      match Get(events, streamId)
      case None =>
        StreamOfAbsent(log, owner, streamId);
        return [];
      case Some(stream) =>
        var i := IndexOf(events, streamId).value;
        assert stream == events[i].1;
        StreamOfIncreasing(log, owner, streamId);
        assert SortedByPosition(stream);
        SortSortedIsIdentity(stream);
        var sorted := SortByPosition(stream);
        r := Known(knownTypes, sorted);
    }

    /** The known events of all streams merged in position order: the log as appended. */
    method ReadAll() returns (r: seq<Event>)
      requires Valid()
      ensures r == Known(knownTypes, log)
    {
      var allEvents := SortByPosition(Concat(events));
      ConcatIsConcatOf(events, log, owner);
      assert forall i, j | 0 <= i < j < |Keys(events)| :: Keys(events)[i] != Keys(events)[j];
      ConcatOfIsLog(Keys(events), log, owner);
      NumberedIncreasing(log);
      SortByPositionFacts(Concat(events));
      SortedUnique(allEvents, log);
      r := Known(knownTypes, allEvents);
    }
  }

  /** After an append, the stream reads as before followed by the known appended events; other streams read as before. */
  lemma ReadAfterAppend(knownTypes: set<string>, log: seq<SerializedEvent>, owner: seq<string>,
                        l: seq<SerializedEvent>, o: seq<string>, streamId: string, k: string)
    requires |log| == |owner| && |l| == |o| && forall i | 0 <= i < |o| :: o[i] == streamId
    ensures Known(knownTypes, StreamOf(log + l, owner + o, k)) ==
      Known(knownTypes, StreamOf(log, owner, k)) + (if k == streamId then Known(knownTypes, l) else [])
  {
    StreamOfAppend(log, owner, l, o, k);
    KnownAppend(knownTypes, StreamOf(log, owner, k), StreamOf(l, o, k));
    if k == streamId {
      StreamOfOwn(l, o, streamId);
    } else {
      StreamOfAbsent(l, o, k);
    }
  }
}
