/** What a loaded dump means, independently of the tree that stores it: a list of
    recordings in the order they were loaded. */
module Recordings {
  import opened Messages

  datatype Recording = Recording(name: string, events: seq<Event>)

  /** Some recording of the method starts with this path. */
  ghost predicate Stored(rs: seq<Recording>, name: string, path: seq<Event>) {
    exists k :: 0 <= k < |rs| && StartsWith(rs[k], name, path)
  }

  predicate StartsWith(r: Recording, name: string, path: seq<Event>) {
    r.name == name && path <= r.events
  }

  /** The recording goes on after this path. */
  predicate Continues(r: Recording, name: string, path: seq<Event>) {
    StartsWith(r, name, path) && |path| < |r.events|
  }

  /** The distinct events recorded straight after the path, in order of first occurrence. */
  function Following(rs: seq<Recording>, name: string, path: seq<Event>): seq<Event> {
    if rs == [] then []
    else
      var r := rs[|rs| - 1];
      var before := Following(rs[..|rs| - 1], name, path);
      if Continues(r, name, path) && r.events[|path|] !in before then before + [r.events[|path|]]
      else before
  }

  /** Upper bound on the length of every stored path. */
  function Longest(rs: seq<Recording>): nat {
    if rs == [] then 0
    else
      var before := Longest(rs[..|rs| - 1]);
      var n := |rs[|rs| - 1].events|;
      if n > before then n else before
  }

  lemma {:induction false} LongestBounds(rs: seq<Recording>, k: nat)
    requires k < |rs|
    ensures |rs[k].events| <= Longest(rs)
  {
    if k < |rs| - 1 {
      LongestBounds(rs[..|rs| - 1], k);
    }
  }

  lemma StoredBounded(rs: seq<Recording>, name: string, path: seq<Event>)
    requires Stored(rs, name, path)
    ensures |path| <= Longest(rs)
  {
    var k :| 0 <= k < |rs| && StartsWith(rs[k], name, path);
    LongestBounds(rs, k);
  }

  lemma FollowingSnoc(rs: seq<Recording>, r: Recording, name: string, path: seq<Event>)
    ensures Following(rs + [r], name, path) ==
      if Continues(r, name, path) && r.events[|path|] !in Following(rs, name, path)
      then Following(rs, name, path) + [r.events[|path|]]
      else Following(rs, name, path)
  {
    assert (rs + [r])[..|rs|] == rs;
  }

  /** The k-th recording is the earliest one that continues the path with e. */
  ghost predicate FirstRecorded(rs: seq<Recording>, name: string, path: seq<Event>, e: Event, k: nat) {
    && k < |rs|
    && Continues(rs[k], name, path) && rs[k].events[|path|] == e
    && forall j :: 0 <= j < k && Continues(rs[j], name, path) ==> rs[j].events[|path|] != e
  }

  /** Exactly the recorded continuations, without repetition, and ordered by the
      recording that introduced them. */
  lemma {:induction false} FollowingCharacterised(rs: seq<Recording>, name: string, path: seq<Event>)
    ensures forall e :: e in Following(rs, name, path) <==> Stored(rs, name, path + [e])
    ensures forall i, j :: 0 <= i < j < |Following(rs, name, path)| ==>
      Following(rs, name, path)[i] != Following(rs, name, path)[j]
    ensures forall i, j, k, l | 0 <= i < j < |Following(rs, name, path)|
      && FirstRecorded(rs, name, path, Following(rs, name, path)[i], k)
      && FirstRecorded(rs, name, path, Following(rs, name, path)[j], l) :: k < l
  {
    if rs != [] {
      var n := |rs| - 1;
      var r := rs[n];
      var init := rs[..n];
      var before := Following(init, name, path);
      FollowingCharacterised(init, name, path);
      forall e ensures e in Following(rs, name, path) <==> Stored(rs, name, path + [e]) {
        StoredSnoc(init, r, name, path + [e]);
        assert init + [r] == rs;
        assert StartsWith(r, name, path + [e]) <==> Continues(r, name, path) && r.events[|path|] == e;
      }
      var f := Following(rs, name, path);
      forall i, j, k, l | 0 <= i < j < |f|
        && FirstRecorded(rs, name, path, f[i], k) && FirstRecorded(rs, name, path, f[j], l)
        ensures k < l
      {
        FirstInPrefix(rs, n, name, path, f[i], k);
        FirstInPrefix(rs, n, name, path, f[j], l);
      }
    }
  }

  /** An event already listed among the first n recordings was introduced by one of them. */
  lemma FirstInPrefix(rs: seq<Recording>, n: nat, name: string, path: seq<Event>, e: Event, k: nat)
    requires n <= |rs| && FirstRecorded(rs, name, path, e, k)
    requires forall x :: x in Following(rs[..n], name, path) <==> Stored(rs[..n], name, path + [x])
    ensures e in Following(rs[..n], name, path) <==> k < n
    ensures k < n ==> FirstRecorded(rs[..n], name, path, e, k)
  {
    if e in Following(rs[..n], name, path) {
      var j :| 0 <= j < n && StartsWith(rs[..n][j], name, path + [e]);
      assert rs[..n][j] == rs[j] && path + [e] <= rs[j].events;
      assert path <= rs[j].events && rs[j].events[|path|] == e;
    } else if k < n {
      assert path + [e] <= rs[k].events;
      assert StartsWith(rs[..n][k], name, path + [e]);
    }
  }

  lemma StoredSnoc(rs: seq<Recording>, r: Recording, name: string, path: seq<Event>)
    ensures Stored(rs + [r], name, path) <==> Stored(rs, name, path) || StartsWith(r, name, path)
  {
    if Stored(rs, name, path) {
      var k :| 0 <= k < |rs| && StartsWith(rs[k], name, path);
      assert (rs + [r])[k] == rs[k];
    }
    if StartsWith(r, name, path) {
      assert (rs + [r])[|rs|] == r;
    }
  }

  lemma FollowingMember(rs: seq<Recording>, name: string, path: seq<Event>, e: Event)
    ensures e in Following(rs, name, path) <==> Stored(rs, name, path + [e])
  {
    FollowingCharacterised(rs, name, path);
  }

  lemma StoredPrefix(rs: seq<Recording>, name: string, path: seq<Event>, n: nat)
    requires Stored(rs, name, path) && n <= |path|
    ensures Stored(rs, name, path[..n])
  {
    var k :| 0 <= k < |rs| && StartsWith(rs[k], name, path);
    assert StartsWith(rs[k], name, path[..n]);
  }

  /** The server message listed first was recorded earliest among those sharing the path. */
  lemma {:induction false} FirstFollowingIsEarliest(rs: seq<Recording>, name: string, path: seq<Event>, k: nat)
    requires k < |rs| && Continues(rs[k], name, path)
    requires forall j :: 0 <= j < k ==> !Continues(rs[j], name, path)
    ensures Following(rs, name, path) != [] && Following(rs, name, path)[0] == rs[k].events[|path|]
  {
    if k < |rs| - 1 {
      FirstFollowingIsEarliest(rs[..|rs| - 1], name, path, k);
    } else {
      NothingFollows(rs[..k], name, path);
    }
  }

  lemma {:induction false} NothingFollows(rs: seq<Recording>, name: string, path: seq<Event>)
    requires forall j :: 0 <= j < |rs| ==> !Continues(rs[j], name, path)
    ensures Following(rs, name, path) == []
  {
    if rs != [] {
      NothingFollows(rs[..|rs| - 1], name, path);
    }
  }

  /** Growing the newest recording by one event adds at most one continuation, at its old end. */
  lemma GrowLast(rs: seq<Recording>, name: string, q: seq<Event>, e: Event, n: string, p: seq<Event>)
    ensures var old' := rs + [Recording(name, q)];
            var new' := rs + [Recording(name, q + [e])];
            && (Stored(new', n, p) <==> Stored(old', n, p) || (n == name && p == q + [e]))
            && Following(new', n, p) ==
                 if n == name && p == q && e !in Following(old', n, p) then Following(old', n, p) + [e]
                 else Following(old', n, p)
  {
    StoredSnoc(rs, Recording(name, q), n, p);
    StoredSnoc(rs, Recording(name, q + [e]), n, p);
    FollowingSnoc(rs, Recording(name, q), n, p);
    FollowingSnoc(rs, Recording(name, q + [e]), n, p);
    assert p <= q + [e] <==> p <= q || p == q + [e] by {
      if p <= q + [e] && |p| == |q| + 1 { assert p == q + [e]; }
      if p <= q + [e] && |p| <= |q| { assert p == (q + [e])[..|p|] == q[..|p|]; }
      if p <= q { assert p == q[..|p|] == (q + [e])[..|p|]; }
    }
  }

  /** Loading again what is already stored changes no path and no order. */
  lemma ReloadChangesNothing(rs: seq<Recording>, r: Recording, n: string, p: seq<Event>)
    requires Stored(rs, r.name, r.events)
    ensures Stored(rs + [r], n, p) <==> Stored(rs, n, p)
    ensures Following(rs + [r], n, p) == Following(rs, n, p)
  {
    StoredSnoc(rs, r, n, p);
    FollowingSnoc(rs, r, n, p);
    if StartsWith(r, n, p) {
      StoredPrefix(rs, r.name, r.events, |p|);
    }
    if Continues(r, n, p) {
      StoredPrefix(rs, r.name, r.events, |p| + 1);
      assert r.events[..|p| + 1] == p + [r.events[|p|]];
      FollowingMember(rs, n, p, r.events[|p|]);
    }
  }
}
