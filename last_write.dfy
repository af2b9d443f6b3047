/**
 * Last-write-wins dictionaries: a read model that walks the events in order and, for each event
 * `write` maps to `Some((key, value))`, performs `m[key] = value` on a map that starts empty.
 * The inventory views and the changed-prices map are all of this shape; they differ only in
 * which events write and what they write.
 */
module LastWrite {
  import opened Wrappers

  function Replay<E, K, V>(events: seq<E>, write: E -> Option<(K, V)>): (m: map<K, V>)
    decreases |events|
  {
    if events == [] then map[]
    else
      var front := Replay(events[..|events| - 1], write);
      match write(events[|events| - 1])
      case Some(kv) => front[kv.0 := kv.1]
      case None => front
  }

  ghost predicate Writes<E, K, V>(write: E -> Option<(K, V)>, e: E, k: K) {
    write(e).Some? && write(e).value.0 == k
  }

  /** The keys of the result are exactly the keys some event writes. */
  lemma {:induction false} ReplayKeys<E, K, V>(events: seq<E>, write: E -> Option<(K, V)>, k: K)
    ensures k in Replay(events, write) <==> exists i | 0 <= i < |events| :: Writes(write, events[i], k)
    decreases |events|
  {
    if events != [] {
      var n := |events| - 1;
      var front := events[..n];
      ReplayKeys(front, write, k);
      if k in Replay(front, write) {
        var i :| 0 <= i < |front| && Writes(write, front[i], k);
        assert events[i] == front[i];
      }
      if i :| 0 <= i < |events| && Writes(write, events[i], k) {
        if i < n { assert front[i] == events[i]; }
      }
    }
  }

  /** The value under a key is the one written by the last event that writes that key. */
  lemma {:induction false} ReplayLastWins<E, K, V>(events: seq<E>, write: E -> Option<(K, V)>, i: nat)
    requires i < |events| && write(events[i]).Some?
    requires forall j | i < j < |events| :: !Writes(write, events[j], write(events[i]).value.0)
    ensures var kv := write(events[i]).value;
      kv.0 in Replay(events, write) && Replay(events, write)[kv.0] == kv.1
    decreases |events|
  {
    var n := |events| - 1;
    if i < n {
      var front := events[..n];
      assert forall j | i < j < |front| :: front[j] == events[j];
      ReplayLastWins(front, write, i);
    }
  }

  /** An event that writes nothing may be dropped from anywhere in the sequence. */
  lemma {:induction false} ReplayIgnores<E, K, V>(a: seq<E>, e: E, b: seq<E>, write: E -> Option<(K, V)>)
    requires write(e).None?
    ensures Replay(a + [e] + b, write) == Replay(a + b, write)
    decreases |b|
  {
    if b == [] {
      assert (a + [e] + b)[..|a| + 1 - 1] == a;
      assert a + b == a;
    } else {
      var n := |b| - 1;
      assert (a + [e] + b)[..|a + [e] + b| - 1] == a + [e] + b[..n];
      assert (a + b)[..|a + b| - 1] == a + b[..n];
      assert (a + [e] + b)[|a + [e] + b| - 1] == b[n] == (a + b)[|a + b| - 1];
      ReplayIgnores(a, e, b[..n], write);
    }
  }

  /** Replaying one event more is one write more. */
  lemma ReplaySnoc<E, K, V>(events: seq<E>, e: E, write: E -> Option<(K, V)>)
    ensures Replay(events + [e], write)
      == match write(e) case Some(kv) => Replay(events, write)[kv.0 := kv.1] case None => Replay(events, write)
  {
    assert (events + [e])[..|events|] == events;
  }
}
