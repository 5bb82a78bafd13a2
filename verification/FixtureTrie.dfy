/** The tree of saved messages that grpc-fixture builds from a dump, and the
    loader that grows it in place. */
module FixtureTrie {
  import opened Messages
  import opened Recordings
  import opened Encoder

  /** Where a node sits: at the root of a stream, or below another node by one message. */
  datatype Place = Root(stream: string) | Below(parent: Place, message: Event)

  function Name(q: Place): string {
    match q case Root(stream) => stream case Below(parent, _) => Name(parent)
  }

  function Path(q: Place): seq<Event> {
    match q case Root(_) => [] case Below(parent, e) => Path(parent) + [e]
  }

  lemma {:induction false} PlaceIsItsPath(q: Place, r: Place)
    requires Name(q) == Name(r) && Path(q) == Path(r)
    ensures q == r
  {
    if q.Below? {
      var n := |Path(q)| - 1;
      assert Path(q)[n] == q.message && Path(r)[n] == r.message;
      assert Path(q)[..n] == Path(q.parent) && Path(r)[..n] == Path(r.parent);
      PlaceIsItsPath(q.parent, r.parent);
    }
  }

  function PlaceOf(name: string, path: seq<Event>): (q: Place)
    ensures Name(q) == name && Path(q) == path
  {
    if path == [] then Root(name)
    else Below(PlaceOf(name, path[..|path| - 1]), path[|path| - 1])
  }

  class MessageTree {
    const origin: Origin
    const raw: Bytes
    var nextMessages: seq<MessageTree>
    ghost const place: Place

    constructor (origin: Origin, raw: Bytes, ghost place: Place)
      ensures this.origin == origin && this.raw == raw && nextMessages == [] && this.place == place
    {
      this.origin, this.raw, this.nextMessages, this.place := origin, raw, [], place;
    }

    function Label(): Event {
      Event(origin, raw)
    }
  }

  /** What every node should offer next, as a value: one entry for each stored place. */
  type Index = map<Place, seq<Event>>

  ghost predicate Held(rs: seq<Recording>, q: Place) {
    Stored(rs, Name(q), Path(q))
  }

  ghost predicate Matches(next: Index, rs: seq<Recording>) {
    forall q {:trigger Held(rs, q)} ::
      && (q in next <==> Held(rs, q))
      && (q in next ==> next[q] == Following(rs, Name(q), Path(q)))
  }

  function WithLeaf(next: Index, q: Place, e: Event): Index
    requires q in next
  {
    next[q := next[q] + [e]][Below(q, e) := []]
  }

  /** The newest recording grows by an event nobody recorded there before: one new
      leaf, last among its siblings. */
  lemma MatchesWithLeaf(next: Index, base: seq<Recording>, q: Place, e: Event)
    requires Matches(next, base + [Recording(Name(q), Path(q))]) && q in next
    requires e !in next[q]
    ensures Below(q, e) !in next
    ensures Matches(WithLeaf(next, q, e), base + [Recording(Name(q), Path(q) + [e])])
  {
    var was, now := base + [Recording(Name(q), Path(q))], base + [Recording(Name(q), Path(q) + [e])];
    assert Held(was, q);
    FollowingMember(was, Name(q), Path(q), e);
    assert !Held(was, Below(q, e));
    forall r ensures MatchesAt(WithLeaf(next, q, e), now, r) {
      assert Held(was, r) <==> r in next;
      LeafMatchesAt(next, base, q, e, r);
    }
    MatchesEverywhere(WithLeaf(next, q, e), now);
  }

  ghost predicate MatchesAt(next: Index, rs: seq<Recording>, q: Place) {
    (q in next <==> Held(rs, q)) && (q in next ==> next[q] == Following(rs, Name(q), Path(q)))
  }

  lemma MatchesEverywhere(next: Index, rs: seq<Recording>)
    requires forall q :: MatchesAt(next, rs, q)
    ensures Matches(next, rs)
  {
    forall q ensures (q in next <==> Held(rs, q)) && (q in next ==> next[q] == Following(rs, Name(q), Path(q))) {
      assert MatchesAt(next, rs, q);
    }
  }

  lemma LeafMatchesAt(next: Index, base: seq<Recording>, q: Place, e: Event, r: Place)
    requires var was := base + [Recording(Name(q), Path(q))];
             MatchesAt(next, was, q) && MatchesAt(next, was, r) && q in next && e !in next[q] && !Held(was, Below(q, e))
    ensures MatchesAt(WithLeaf(next, q, e), base + [Recording(Name(q), Path(q) + [e])], r)
  {
    GrownAt(base, q, e, r);
    NothingBelowUnstored(base + [Recording(Name(q), Path(q))], Name(q), Path(q) + [e]);
  }

  /** What the new event changes at one place. */
  lemma GrownAt(base: seq<Recording>, q: Place, e: Event, r: Place)
    ensures var was, now := base + [Recording(Name(q), Path(q))], base + [Recording(Name(q), Path(q) + [e])];
            && (Held(now, r) <==> Held(was, r) || r == Below(q, e))
            && Following(now, Name(r), Path(r)) ==
               if r == q && e !in Following(was, Name(r), Path(r)) then Following(was, Name(r), Path(r)) + [e]
               else Following(was, Name(r), Path(r))
  {
    GrowLast(base, Name(q), Path(q), e, Name(r), Path(r));
    SamePlace(r, q);
    SamePlace(r, Below(q, e));
  }

  /** The newest recording grows by an event that is already there. */
  lemma MatchesWhenFound(next: Index, base: seq<Recording>, q: Place, e: Event)
    requires Matches(next, base + [Recording(Name(q), Path(q))]) && q in next
    requires e in next[q]
    ensures Matches(next, base + [Recording(Name(q), Path(q) + [e])])
  {
    var was := base + [Recording(Name(q), Path(q))];
    var now := base + [Recording(Name(q), Path(q) + [e])];
    assert Held(was, q);
    FollowingMember(was, Name(q), Path(q), e);
    forall r
      ensures Held(now, r) <==> Held(was, r)
      ensures Following(now, Name(r), Path(r)) == Following(was, Name(r), Path(r))
    {
      GrowLast(base, Name(q), Path(q), e, Name(r), Path(r));
    }
  }

  /** An RPC without messages only makes sure that its stream has a root. */
  lemma MatchesWithRoot(next: Index, rs: seq<Recording>, name: string)
    requires Matches(next, rs)
    ensures Matches(if Root(name) in next then next else next[Root(name) := []], rs + [Recording(name, [])])
  {
    var now := rs + [Recording(name, [])];
    NothingBelowUnstored(rs, name, []);
    assert Held(rs, Root(name)) <==> Root(name) in next;
    forall r
      ensures Held(now, r) <==> Held(rs, r) || r == Root(name)
      ensures Following(now, Name(r), Path(r)) == Following(rs, Name(r), Path(r))
    {
      StoredSnoc(rs, Recording(name, []), Name(r), Path(r));
      FollowingSnoc(rs, Recording(name, []), Name(r), Path(r));
      SamePlace(r, Root(name));
    }
  }

  /** Loading again what is stored leaves every place and every order as it was. */
  lemma MatchesAfterReload(next: Index, rs: seq<Recording>, r: Recording)
    requires Matches(next, rs) && Stored(rs, r.name, r.events)
    ensures Matches(next, rs + [r])
  {
    forall q
      ensures Held(rs + [r], q) <==> Held(rs, q)
      ensures Following(rs + [r], Name(q), Path(q)) == Following(rs, Name(q), Path(q))
    {
      ReloadChangesNothing(rs, r, Name(q), Path(q));
    }
  }

  /** A list of recordings has only one index. */
  lemma IndexIsUnique(next: Index, next': Index, rs: seq<Recording>)
    requires Matches(next, rs) && Matches(next', rs)
    ensures next == next'
  {
    forall q ensures q in next <==> q in next' {
      assert Held(rs, q) || !Held(rs, q);
    }
    forall q | q in next ensures next[q] == next'[q] {
      assert Held(rs, q);
    }
  }

  lemma SamePlace(q: Place, r: Place)
    ensures q == r <==> Name(q) == Name(r) && Path(q) == Path(r)
  {
    if Name(q) == Name(r) && Path(q) == Path(r) {
      PlaceIsItsPath(q, r);
    }
  }

  /** A path that is not stored has no continuation. */
  lemma NothingBelowUnstored(rs: seq<Recording>, name: string, path: seq<Event>)
    ensures !Stored(rs, name, path) ==> Following(rs, name, path) == []
  {
    var es := Following(rs, name, path);
    if es != [] {
      FollowingMember(rs, name, path, es[0]);
      StoredPrefix(rs, name, path + [es[0]], |path|);
      assert (path + [es[0]])[..|path|] == path;
    }
  }

  class Fixture {
    var trees: map<string, MessageTree>
    /** The recordings loaded so far, oldest first. */
    ghost var recorded: seq<Recording>
    /** Every node by its place, and what each of them should offer next. */
    ghost var at: map<Place, MessageTree>
    ghost var next: Index
    ghost var nodes: set<MessageTree>

    constructor ()
      ensures Valid() && recorded == [] && nodes == {}
    {
      trees, recorded, at, next, nodes := map[], [], map[], map[], {};
    }

    /** The heap is the trie of the recordings. */
    ghost predicate Valid()
      reads this, nodes
    {
      Linked() && Matches(next, recorded)
    }

    /** One node for each place of the index. It knows its place, carries the message
        that leads there, and its children carry what the index lists, in that order. */
    ghost predicate Linked()
      reads this`trees, this`at, this`next, this`nodes, nodes
    {
      && at.Keys == next.Keys
      && (forall m {:trigger m in trees} :: m in trees ==> IsNode(trees[m], Root(m)))
      && (forall m {:trigger Root(m) in at} :: Root(m) in at ==> m in trees)
      && (forall q {:trigger at[q]} :: q in at ==> at[q] in nodes)
      && (forall q {:trigger NodeFits(q)} :: q in at ==> NodeFits(q))
    }

    ghost predicate NodeFits(q: Place)
      requires at.Keys == next.Keys && q in at && at[q] in nodes
      reads this`trees, this`at, this`next, this`nodes, nodes
    {
      && at[q].place == q
      && (q.Below? ==> at[q].Label() == q.message)
      && |at[q].nextMessages| == |next[q]|
      && forall i {:trigger at[q].nextMessages[i]} :: 0 <= i < |next[q]| ==>
           IsNode(at[q].nextMessages[i], Below(q, next[q][i]))
    }

    ghost predicate IsNode(n: MessageTree, q: Place)
      reads this`at
    {
      q in at && at[q] == n
    }

    /** The same nodes at the same places, with the same messages to offer. */
    ghost predicate SameTree(at: map<Place, MessageTree>, next: Index, nodes: set<MessageTree>)
      reads this`at, this`next, this`nodes
    {
      this.at == at && this.next == next && this.nodes == nodes
    }

    /** What a reader of the tree sees at a node: the recorded continuations, in order. */
    lemma ReadsRecordings(q: Place)
      requires Valid() && q in at
      ensures next[q] == Following(recorded, Name(q), Path(q)) && |at[q].nextMessages| == |next[q]|
      ensures forall i {:trigger at[q].nextMessages[i]} :: 0 <= i < |next[q]| ==>
        && at[q].nextMessages[i].Label() == next[q][i]
        && IsNode(at[q].nextMessages[i], Below(q, next[q][i]))
    {
      assert NodeFits(q) && Held(recorded, q);
      forall i | 0 <= i < |next[q]|
        ensures at[q].nextMessages[i].Label() == next[q][i]
        ensures IsNode(at[q].nextMessages[i], Below(q, next[q][i]))
      {
        var c := at[q].nextMessages[i];
        assert IsNode(c, Below(q, next[q][i])) && NodeFits(Below(q, next[q][i]));
      }
    }

    /** The root-to-node paths are exactly the prefixes of what was recorded: an empty one
        leads to the root of its stream, and any other to a child of its parent. */
    lemma PathsAreThePrefixes(name: string, path: seq<Event>)
      requires Valid()
      ensures PlaceOf(name, path) in at <==> Stored(recorded, name, path)
      ensures Stored(recorded, name, []) ==> name in trees && at[PlaceOf(name, [])] == trees[name]
      ensures path != [] && Stored(recorded, name, path) ==>
        var parent := PlaceOf(name, path[..|path| - 1]);
        && parent in at
        && exists i :: 0 <= i < |at[parent].nextMessages| && at[parent].nextMessages[i] == at[PlaceOf(name, path)]
    {
      assert Held(recorded, PlaceOf(name, path)) <==> Stored(recorded, name, path);
      assert Held(recorded, Root(name)) <==> Stored(recorded, name, []);
      if path != [] && Stored(recorded, name, path) {
        var n := |path| - 1;
        var parent := PlaceOf(name, path[..n]);
        StoredPrefix(recorded, name, path, n);
        assert Held(recorded, parent);
        assert path[..n] + [path[n]] == path;
        FollowingMember(recorded, name, path[..n], path[n]);
        ReadsRecordings(parent);
        var i :| 0 <= i < |next[parent]| && next[parent][i] == path[n];
        assert IsNode(at[parent].nextMessages[i], Below(parent, path[n]));
      }
    }

    /** Siblings differ in origin or bytes. */
    lemma SiblingsDiffer(q: Place, i: nat, j: nat)
      requires Valid() && q in at && i < j < |at[q].nextMessages|
      ensures at[q].nextMessages[i].Label() != at[q].nextMessages[j].Label()
    {
      ReadsRecordings(q);
      var a, b := at[q].nextMessages[i], at[q].nextMessages[j];
      FollowingCharacterised(recorded, Name(q), Path(q));
    }

    /** Different places never share a node, so subtrees that do not contain each
        other are disjoint. */
    lemma SubtreesDisjoint(top: Place, top': Place, q: Place, q': Place)
      requires Valid() && q in at && q' in at
      requires Within(q, top) && Within(q', top') && !Within(top, top') && !Within(top', top)
      ensures at[q] != at[q']
    {
      if q == q' {
        NestedOrApart(q, top, top');
      } else {
        assert NodeFits(q) && NodeFits(q');
      }
    }

    /** The loader's inner search: the child that carries the message, if there is one. */
    method FindChild(ghost q: Place, node: MessageTree, e: Event) returns (found: MessageTree?)
      requires Linked() && IsNode(node, q)
      ensures found == null <==> e !in next[q]
      ensures found != null ==> IsNode(found, Below(q, e))
    {
      assert NodeFits(q);
      var i := 0;
      while i < |node.nextMessages|
        invariant 0 <= i <= |node.nextMessages|
        invariant forall j :: 0 <= j < i ==> next[q][j] != e
      {
        var nextMessage := node.nextMessages[i];
        assert NodeFits(Below(q, next[q][i]));
        if nextMessage.origin == e.origin && nextMessage.raw == e.raw {
          return nextMessage;
        }
        i := i + 1;
      }
      return null;
    }

    /** The heap update alone: one node gets one more child. */
    method AppendChild(ghost q: Place, node: MessageTree, e: Event) returns (child: MessageTree)
      requires Linked() && IsNode(node, q) && Below(q, e) !in next
      modifies this`at, this`next, this`nodes, node
      ensures Linked() && IsNode(child, Below(q, e))
      ensures next == WithLeaf(old(next), q, e)
      ensures at == old(at)[Below(q, e) := child] && nodes == old(nodes) + {child} && fresh(child)
    {
      assert NodeFits(q);
      child := new MessageTree(e.origin, e.raw, Below(q, e));
      node.nextMessages := node.nextMessages + [child];
      at, next, nodes := at[Below(q, e) := child], WithLeaf(next, q, e), nodes + {child};
      forall r | r in at ensures NodeFits(r) {
        if r in old(at) {
          assert old(NodeFits(r));
        }
      }
    }

    /** One round of the loader's inner loop: find the child for the message, or append it. */
    method Descend(ghost q: Place, node: MessageTree, e: Event, ghost base: seq<Recording>) returns (child: MessageTree)
      requires Valid() && IsNode(node, q)
      requires recorded == base + [Recording(Name(q), Path(q))]
      modifies this`recorded, this`at, this`next, this`nodes, node
      ensures Valid() && IsNode(child, Below(q, e))
      ensures recorded == base + [Recording(Name(q), Path(q) + [e])]
      ensures fresh(nodes - old(nodes))
      ensures Below(q, e) in old(next) ==> SameTree(old(at), old(next), old(nodes))
    {
      var foundExisting := FindChild(q, node, e);
      if foundExisting == null {
        MatchesWithLeaf(next, base, q, e);
        child := AppendChild(q, node, e);
      } else {
        MatchesWhenFound(next, base, q, e);
        child := foundExisting;
      }
      recorded := base + [Recording(Name(q), Path(q) + [e])];
    }

    /** Entering a stream: its root exists from the first RPC on, even an empty one. */
    method OpenStream(name: string) returns (root: MessageTree)
      requires Valid()
      modifies this
      ensures Valid() && IsNode(root, Root(name))
      ensures recorded == old(recorded) + [Recording(name, [])]
      ensures fresh(nodes - old(nodes))
      ensures Root(name) in old(next) ==> SameTree(old(at), old(next), old(nodes))
    {
      MatchesWithRoot(next, recorded, name);
      if name !in trees {
        root := PlantRoot(name);
      } else {
        root := trees[name];
      }
      recorded := recorded + [Recording(name, [])];
    }

    method PlantRoot(name: string) returns (root: MessageTree)
      requires Linked() && name !in trees
      modifies this`trees, this`at, this`next, this`nodes
      ensures Linked() && IsNode(root, Root(name))
      ensures Root(name) !in old(next) && next == old(next)[Root(name) := []]
      ensures nodes == old(nodes) + {root} && fresh(root)
    {
      assert Root(name) !in at;
      root := new MessageTree(UnknownOrigin(""), [], Root(name));
      trees := trees[name := root];
      at, next, nodes := at[Root(name) := root], next[Root(name) := []], nodes + {root};
      forall r | r in at ensures NodeFits(r) {
        if r in old(at) {
          assert old(NodeFits(r));
        }
      }
    }

    /** Loading one RPC appends one recording: all of its messages, or those before
        the first that cannot be encoded. If they are stored already, no node changes. */
    method LoadRpc<D, Y>(p: Pipeline<D, Y>, rpc: Rpc) returns (ok: bool, ghost events: seq<Event>)
      requires Valid()
      modifies this, nodes
      ensures Valid()
      ensures EncodesTo(p, StreamName(rpc), rpc.messages, events)
      ensures recorded == old(recorded) + [Recording(StreamName(rpc), events)]
      ensures ok <==> |events| == |rpc.messages|
      ensures !ok ==> EncodingOf(p, StreamName(rpc), rpc.messages[|events|]) == EncodeError
      ensures fresh(nodes - old(nodes))
      ensures Stored(old(recorded), StreamName(rpc), events) ==> SameTree(old(at), old(next), old(nodes))
    {
      ghost var next0, base := next, recorded;
      var messageTreeNode := OpenStream(StreamName(rpc));
      ok, events := LoadMessages(p, rpc, messageTreeNode, base);
      if Stored(base, StreamName(rpc), events) {
        StoredIsHeld(next0, base, StreamName(rpc), events);
      }
    }

    /** The loader's inner loop, on top of the recordings in base. */
    method LoadMessages<D, Y>(p: Pipeline<D, Y>, rpc: Rpc, root: MessageTree, ghost base: seq<Recording>)
      returns (ok: bool, ghost events: seq<Event>)
      requires Valid() && IsNode(root, Root(StreamName(rpc))) && recorded == base + [Recording(StreamName(rpc), [])]
      modifies this`recorded, this`at, this`next, this`nodes, nodes
      ensures Valid()
      ensures EncodesTo(p, StreamName(rpc), rpc.messages, events)
      ensures recorded == base + [Recording(StreamName(rpc), events)]
      ensures ok <==> |events| == |rpc.messages|
      ensures !ok ==> EncodingOf(p, StreamName(rpc), rpc.messages[|events|]) == EncodeError
      ensures fresh(nodes - old(nodes))
      ensures PlaceOf(StreamName(rpc), events) in old(next) ==> SameTree(old(at), old(next), old(nodes))
    {
      var name := StreamName(rpc);
      events := [];
      var messageTreeNode: MessageTree := root;
      for i := 0 to |rpc.messages|
        invariant |events| == i && EncodesTo(p, name, rpc.messages, events)
        invariant Loaded(base, name, events, messageTreeNode)
        invariant fresh(nodes - old(nodes))
        invariant PlaceOf(name, events) in old(next) ==> SameTree(old(at), old(next), old(nodes))
      {
        var child, e := LoadMessage(p, name, rpc.messages[i], base, events, messageTreeNode);
        if child == null {
          return false, events;
        }
        EncodesOneMore(p, name, rpc.messages, events, e);
        ParentIsHeld(old(next), old(recorded), name, events, e);
        messageTreeNode, events := child, events + [e];
      }
      return true, events;
    }

    /** What loading the first events of an RPC on top of base has come to. */
    ghost predicate Loaded(base: seq<Recording>, name: string, events: seq<Event>, node: MessageTree)
      reads this, nodes
    {
      Valid() && IsNode(node, PlaceOf(name, events)) && recorded == base + [Recording(name, events)]
    }

    /** One round of the inner loop: encode the message and go down to its node. */
    method LoadMessage<D, Y>(p: Pipeline<D, Y>, name: string, message: Message, ghost base: seq<Recording>,
                             ghost events: seq<Event>, node: MessageTree)
      returns (child: MessageTree?, ghost e: Event)
      requires Loaded(base, name, events, node)
      modifies this`recorded, this`at, this`next, this`nodes, node
      ensures child == null ==> EncodingOf(p, name, message) == EncodeError
      ensures child == null ==> Loaded(base, name, events, node) && SameTree(old(at), old(next), old(nodes))
      ensures child != null ==> EncodesAs(p, name, message, e) && Loaded(base, name, events + [e], child)
      ensures child != null && PlaceOf(name, events + [e]) in old(next) ==> SameTree(old(at), old(next), old(nodes))
      ensures fresh(nodes - old(nodes))
    {
      child, e := null, Event(message.origin, []);
      var r := Encode(p, name, message);
      if !r.EncodeError? {
        e := Event(message.origin, r.bytes);
        assert (events + [e])[..|events|] == events;
        child := Descend(PlaceOf(name, events), node, Event(message.origin, r.bytes), base);
      }
    }
  }

  lemma ParentIsHeld(next: Index, rs: seq<Recording>, name: string, path: seq<Event>, e: Event)
    requires Matches(next, rs)
    ensures PlaceOf(name, path + [e]) in next ==> PlaceOf(name, path) in next
  {
    if PlaceOf(name, path + [e]) in next {
      assert Held(rs, PlaceOf(name, path + [e]));
      StoredPrefix(rs, name, path + [e], |path|);
      assert (path + [e])[..|path|] == path;
      assert Held(rs, PlaceOf(name, path));
    }
  }

  lemma StoredIsHeld(next: Index, rs: seq<Recording>, name: string, path: seq<Event>)
    requires Matches(next, rs) && Stored(rs, name, path)
    ensures PlaceOf(name, path) in next && Root(name) in next
  {
    assert Held(rs, PlaceOf(name, path));
    StoredPrefix(rs, name, path, 0);
    assert path[..0] == [] && Held(rs, Root(name));
  }

  /** q is top or somewhere below it. */
  predicate Within(q: Place, top: Place) {
    q == top || (q.Below? && Within(q.parent, top))
  }

  lemma {:induction false} NestedOrApart(q: Place, top: Place, top': Place)
    requires Within(q, top) && Within(q, top')
    ensures Within(top, top') || Within(top', top)
  {
    if q != top && q != top' {
      NestedOrApart(q.parent, top, top');
    }
  }

  /** What loading a list of RPCs stores: one recording each, with the encoded messages. */
  ghost predicate LoadsTo<D, Y>(p: Pipeline<D, Y>, rpcs: seq<Rpc>, rs: seq<Recording>) {
    && |rs| == |rpcs|
    && forall k {:trigger rs[k]} :: 0 <= k < |rs| ==> RecordedAs(p, rpcs[k], rs[k])
  }

  ghost predicate RecordedAs<D, Y>(p: Pipeline<D, Y>, rpc: Rpc, r: Recording) {
    r.name == StreamName(rpc) && |r.events| == |rpc.messages| && EncodesTo(p, r.name, rpc.messages, r.events)
  }

  predicate CannotEncode<D, Y>(p: Pipeline<D, Y>, rpc: Rpc) {
    exists i :: 0 <= i < |rpc.messages| && EncodingOf(p, StreamName(rpc), rpc.messages[i]) == EncodeError
  }

  lemma RecordedIsEncodable<D, Y>(p: Pipeline<D, Y>, rpc: Rpc, r: Recording)
    requires RecordedAs(p, rpc, r)
    ensures !CannotEncode(p, rpc)
  {
    forall i | 0 <= i < |rpc.messages| ensures EncodingOf(p, StreamName(rpc), rpc.messages[i]) != EncodeError {
      assert EncodesAs(p, r.name, rpc.messages[i], r.events[i]);
    }
  }

  /** Loads a whole dump; it fails exactly when some message cannot be encoded. */
  method LoadFixture<D, Y>(p: Pipeline<D, Y>, rpcs: seq<Rpc>) returns (fixture: Option<Fixture>)
    ensures fixture.Some? ==>
      fresh(fixture.value) && fixture.value.Valid() && LoadsTo(p, rpcs, fixture.value.recorded)
    ensures fixture.None? <==> exists k :: 0 <= k < |rpcs| && CannotEncode(p, rpcs[k])
  {
    var f := new Fixture();
    var k := 0;
    while k < |rpcs|
      invariant 0 <= k <= |rpcs|
      invariant fresh(f) && fresh(f.nodes) && f.Valid()
      invariant LoadsTo(p, rpcs[..k], f.recorded)
      invariant forall j :: 0 <= j < k ==> !CannotEncode(p, rpcs[j])
    {
      var ok, events := f.LoadRpc(p, rpcs[k]);
      if !ok {
        assert CannotEncode(p, rpcs[k]);
        return None;
      }
      RecordedIsEncodable(p, rpcs[k], f.recorded[k]);
      k := k + 1;
    }
    assert rpcs[..k] == rpcs;
    return Some(f);
  }
}
