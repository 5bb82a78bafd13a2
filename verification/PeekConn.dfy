/** A connection whose first bytes can be looked at before anyone reads them. */
module PeekConn {
  import opened Messages

  /** The last of so many reads of a connection: how much room it had, how many bytes it
      gave, and whether it failed. */
  datatype LastRead = LastRead(count: nat, room: nat, n: nat, failed: bool)

  /** A connection as the operating system gives it. incoming is what its reads are still
      going to return, and last how they went so far. destination is set on connections that
      were redirected. */
  class RawConn {
    var incoming: Bytes
    ghost var last: LastRead
    const destination: Option<string>

    constructor (incoming: Bytes, destination: Option<string>)
      ensures this.incoming == incoming && this.destination == destination && last == LastRead(0, 0, 0, false)
    {
      last := LastRead(0, 0, 0, false);
      this.incoming := incoming;
      this.destination := destination;
    }

    /** Fills b from lo on with as many bytes as it likes. It may fail at any time, also
        after some bytes, and has to fail when there is room and nothing comes. */
    method Read(b: array<Byte>, lo: nat) returns (n: nat, failed: bool)
      requires lo <= b.Length
      modifies this`incoming, this`last, b
      ensures ReadInto(old(b[..]), b[..], lo, n, old(incoming), incoming)
      ensures lo < b.Length && n == 0 ==> failed
      ensures last == LastRead(old(last).count + 1, b.Length - lo, n, failed)
    {
      n :| 0 <= n <= b.Length - lo && n <= |incoming|;
      failed := *;
      failed := failed || (n == 0 && lo < b.Length);
      for i := 0 to n
        invariant incoming == old(incoming) && last == old(last)
        invariant forall k :: 0 <= k < b.Length ==> b[k] == if lo <= k < lo + i then incoming[k - lo] else old(b[k])
      {
        b[lo + i] := incoming[i];
      }
      incoming := incoming[n..];
      last := LastRead(last.count + 1, b.Length - lo, n, failed);
    }
  }

  /** A buffer with piece written over it at lo. */
  ghost function Fill(b: Bytes, lo: nat, piece: Bytes): (r: Bytes)
    requires lo + |piece| <= |b|
    ensures |r| == |b|
  {
    b[..lo] + piece + b[lo + |piece|..]
  }

  function Zeros(n: nat): (z: Bytes)
    ensures |z| == n && forall i :: 0 <= i < n ==> z[i] == 0
  {
    seq(n, _ => 0)
  }

  /** n bytes move from the front of a stream into a buffer, at lo. */
  ghost predicate ReadInto(was: Bytes, b: Bytes, lo: nat, n: nat, stream: Bytes, rest: Bytes) {
    lo + n <= |was| && n <= |stream| && b == Fill(was, lo, stream[..n]) && rest == stream[n..]
  }

  /** A read with this much room, of a stack of connections that had this many bytes ahead,
      gave n bytes. If those did not all fit, the room was filled and nothing else happened;
      otherwise they came in full, and the connection at the bottom was read once, into the
      room that was left. */
  ghost predicate OneRead(ahead: nat, room: nat, n: nat, failed: bool, was: LastRead, last: LastRead) {
    if ahead > room then n == room && !failed && last == was
    else n >= ahead && last == LastRead(was.count + 1, room - ahead, n - ahead, failed)
  }

  /** What such a read leaves ahead. */
  function Left(ahead: nat, room: nat): nat {
    if ahead > room then ahead - room else 0
  }

  /** Copies length bytes of src, from there on, into b at lo. */
  method Copy(b: array<Byte>, lo: nat, src: array<Byte>, from: nat, length: nat)
    requires lo + length <= b.Length && from + length <= src.Length && b != src
    modifies b
    ensures b[..] == Fill(old(b[..]), lo, src[from..from + length])
  {
    for i := 0 to length
      invariant forall k :: 0 <= k < b.Length ==> b[k] == if lo <= k < lo + i then src[from + k - lo] else old(b[k])
    {
      b[lo + i] := src[from + i];
    }
  }

  datatype Underlying = Raw(conn: RawConn) | Stacked(peeker: Peeker)

  class Peeker {
    const conn: Underlying
    /** The bytes read ahead are peeked[start..]. */
    var peeked: array?<Byte>
    var start: nat
    ghost var Repr: set<object>
    /** The connection at the bottom of the stack. */
    ghost const bottom: RawConn

    /** The buffer is this peeker's own, and the stack below does not contain it. */
    ghost predicate Valid()
      reads this, Repr
      decreases Repr
    {
      && this in Repr
      && (peeked != null ==> peeked in Repr && start <= peeked.Length)
      && match conn
         case Raw(raw) => raw in Repr && raw == bottom
         case Stacked(below) =>
           && below in Repr && below.Repr < Repr && this !in below.Repr
           && peeked !in below.Repr && below.Valid() && bottom == below.bottom
    }

    /** Everything the reads of this peeker are still going to return. */
    ghost function Stream(): Bytes
      requires Valid()
      reads this, Repr
      decreases Repr, 0
    {
      if peeked == null then Below() else ReadAhead() + Below()
    }

    ghost function ReadAhead(): Bytes
      requires peeked != null ==> start <= peeked.Length
      reads this, peeked
    {
      if peeked == null then [] else peeked[start..]
    }

    /** What the connection underneath is still going to return. */
    ghost function Below(): Bytes
      requires conn.Stacked? ==> conn.peeker.Valid()
      reads if conn.Raw? then {conn.conn} else {conn.peeker} + conn.peeker.Repr
      decreases if conn.Raw? then {} else conn.peeker.Repr, 1
    {
      match conn
      case Raw(raw) => raw.incoming
      case Stacked(below) => below.Stream()
    }

    /** How many bytes have been read ahead, here and further down. */
    ghost function Ahead(): nat
      requires Valid()
      reads this, Repr
      decreases Repr, 0
    {
      |ReadAhead()| + AheadBelow()
    }

    ghost function AheadBelow(): nat
      requires conn.Stacked? ==> conn.peeker.Valid()
      reads if conn.Raw? then {conn.conn} else {conn.peeker} + conn.peeker.Repr
      decreases if conn.Raw? then {} else conn.peeker.Repr, 1
    {
      match conn
      case Raw(_) => 0
      case Stacked(below) => below.Ahead()
    }

    /** How the reads of the connection at the bottom went. */
    ghost function Last(): LastRead
      requires conn.Stacked? ==> conn.peeker.Valid()
      reads if conn.Raw? then {conn.conn} else {conn.peeker} + conn.peeker.Repr
      decreases if conn.Raw? then {} else conn.peeker.Repr, 1
    {
      match conn
      case Raw(raw) => raw.last
      case Stacked(below) => below.Last()
    }

    constructor (raw: RawConn)
      ensures Valid() && fresh(Repr - {raw}) && peeked == null
      ensures Stream() == raw.incoming && bottom == raw
      ensures Ahead() == 0 && Last() == raw.last
    {
      conn := Raw(raw);
      bottom := raw;
      peeked := null;
      start := 0;
      Repr := {this, raw};
    }

    constructor Over(below: Peeker)
      requires below.Valid()
      ensures Valid() && fresh(Repr - below.Repr) && peeked == null
      ensures Stream() == below.Stream() && bottom == below.bottom
      ensures Ahead() == below.Ahead() && Last() == below.Last()
    {
      conn := Stacked(below);
      bottom := below.bottom;
      peeked := null;
      start := 0;
      Repr := {this} + below.Repr;
    }

    /** Reads length bytes ahead and says whether they match. Nobody can tell afterwards,
        unless the bytes did not all arrive: then the missing ones stay in the buffer as
        zeros. It fails if and only if the one read it makes fails or falls short. Peeking a
        second time is refused and changes nothing. */
    method PeekMatch(pattern: Bytes -> bool, length: nat)
      returns (matches: bool, failed: bool, ghost got: nat, ghost cut: bool)
      requires Valid()
      modifies Repr
      ensures Valid() && fresh(Repr - old(Repr))
      ensures old(peeked) != null ==> failed && Stream() == old(Stream()) && Last() == old(Last())
      ensures old(peeked) == null ==>
                got <= length && got <= |old(Stream())| && Stream() == Padded(old(Stream()), got, length)
      ensures !failed ==> got == length && Stream() == old(Stream()) && matches == pattern(old(Stream())[..length])
      ensures failed ==> !matches
      ensures old(peeked) == null ==>
                OneRead(old(Ahead()), length, got, cut, old(Last()), Last()) && failed == (cut || got != length)
    {
      if peeked != null {
        return false, true, 0, true;
      }
      ghost var stream := Stream();
      var n;
      n, failed := FillBuffer(length);
      got, cut := n, failed;
      PaddingShows(stream, got, length);
      failed := failed || n != length;
      matches := !failed && pattern(peeked[..]);
    }

    /** Makes the buffer and reads once into it. */
    method FillBuffer(length: nat) returns (n: nat, failed: bool)
      requires Valid() && peeked == null
      modifies Repr
      ensures Valid() && fresh(Repr - old(Repr)) && peeked != null && peeked.Length == length
      ensures n <= length && n <= |old(Stream())| && Stream() == Padded(old(Stream()), n, length)
      ensures n == length ==> peeked[..] == old(Stream())[..length]
      ensures OneRead(old(Ahead()), length, n, failed, old(Last()), Last())
    {
      var buffer := new Byte[length](_ => 0);
      ghost var below := Below();
      assert buffer[..] == Zeros(length);
      n, failed := ReadAll(buffer);
      ghost var rest, last := Below(), Last();
      PeekedIsPadded(buffer[..], n, below, rest);
      peeked, start := buffer, 0;
      Repr := Repr + {buffer};
      assert ReadAhead() == buffer[..] && Below() == rest && Last() == last;
    }

    /** A read of the connection underneath into a whole buffer. */
    method ReadAll(b: array<Byte>) returns (n: nat, failed: bool)
      requires Valid() && b !in Repr
      modifies Repr - {this, peeked}, b
      ensures Valid() && Repr == old(Repr)
      ensures ReadInto(old(b[..]), b[..], 0, n, old(Below()), Below())
      ensures OneRead(old(AheadBelow()), b.Length, n, failed, old(Last()), Last())
      decreases Repr, 1
    {
      ghost var was, below := b[..], Below();
      assert was == Fill(was, 0, []) && [] + below == below;
      n, failed := ReadBelow(b, 0, 0, was, []);
    }

    /** Fills the buffer b from lo on: first from what was read ahead, then from below. To
        the caller this is no different from reading the connection itself. */
    method Read(b: array<Byte>, lo: nat) returns (n: nat, failed: bool)
      requires Valid() && lo <= b.Length && b !in Repr
      modifies Repr, b
      ensures Valid() && Repr == old(Repr)
      ensures ReadInto(old(b[..]), b[..], lo, n, old(Stream()), Stream())
      ensures OneRead(old(Ahead()), b.Length - lo, n, failed, old(Last()), Last())
      ensures Ahead() == Left(old(Ahead()), b.Length - lo)
      ensures lo < b.Length && n == 0 ==> failed
      decreases Repr, 2
    {
      ghost var was, below := b[..], Below();
      if peeked != null && peeked.Length - start <= b.Length - lo {
        n, failed := ReadThrough(b, lo);
        Forget();
      } else if peeked != null {
        n, failed := b.Length - lo, false;
        TakePeeked(b, lo, n);
      } else {
        assert was == Fill(was, lo, []) && [] + below == below;
        n, failed := ReadBelow(b, lo, 0, was, []);
      }
    }

    /** Nothing is read ahead here any more. */
    method Forget()
      requires Valid()
      modifies this`peeked
      ensures Valid() && peeked == null
      ensures Stream() == old(Below()) && Ahead() == old(AheadBelow()) && Last() == old(Last())
    {
      peeked := null;
    }

    /** Fills b with everything read ahead here, and then from below. */
    method ReadThrough(b: array<Byte>, lo: nat) returns (n: nat, failed: bool)
      requires Valid() && b !in Repr
      requires peeked != null && lo + peeked.Length - start <= b.Length
      modifies Repr - {this, peeked}, b
      ensures Valid() && Repr == old(Repr)
      ensures ReadInto(old(b[..]), b[..], lo, n, old(Stream()), Below())
      ensures OneRead(old(Ahead()), b.Length - lo, n, failed, old(Last()), Last())
      ensures AheadBelow() == Left(old(Ahead()), b.Length - lo)
      ensures lo < b.Length && n == 0 ==> failed
      decreases Repr, 1
    {
      ghost var was, ahead, deep := b[..], ReadAhead(), AheadBelow();
      ghost var length := peeked.Length - start;
      assert ahead == peeked[start..start + length];
      Copy(b, lo, peeked, start, peeked.Length - start);
      assert AheadBelow() == deep;
      n, failed := ReadBelow(b, lo, peeked.Length - start, was, ahead);
    }

    /** Fills b with bytes read ahead, and leaves some of these. */
    method TakePeeked(b: array<Byte>, lo: nat, n: nat)
      requires Valid() && b !in Repr && lo + n <= b.Length
      requires peeked != null && n <= peeked.Length - start
      modifies this`start, b
      ensures Valid()
      ensures ReadInto(old(b[..]), b[..], lo, n, old(Stream()), Stream())
      ensures peeked == old(peeked) && Ahead() == old(Ahead()) - n && Last() == old(Last())
    {
      ghost var was, ahead, below := b[..], ReadAhead(), Below();
      assert Stream() == ahead + below;
      assert ahead[..n] == peeked[start..start + n];
      Copy(b, lo, peeked, start, n);
      start := start + n;
      assert ReadAhead() == ahead[n..] && Below() == below;
      assert b[..] == Fill(was, lo, ahead[..n]);
      assert Stream() == ahead[n..] + below;
      ReadWithin(was, lo, n, ahead, below);
    }

    /** A read of the connection underneath, after length bytes of b have been filled with
        piece. The result counts both. */
    method ReadBelow(b: array<Byte>, lo: nat, length: nat, ghost was: Bytes, ghost piece: Bytes)
      returns (n: nat, failed: bool)
      requires Valid() && lo + length <= b.Length && b !in Repr
      requires |piece| == length && |was| == b.Length && b[..] == Fill(was, lo, piece)
      modifies Repr - {this, peeked}, b
      ensures Valid() && Repr == old(Repr)
      ensures ReadInto(was, b[..], lo, n, piece + old(Below()), Below())
      ensures n >= length && (lo + length < b.Length && n == length ==> failed)
      ensures OneRead(old(AheadBelow()), b.Length - lo - length, n - length, failed, old(Last()), Last())
      ensures AheadBelow() == Left(old(AheadBelow()), b.Length - lo - length)
      decreases Repr, 0
    {
      var at, got := lo + length, 0;
      match conn {
        case Raw(raw) => got, failed := raw.Read(b, at);
        case Stacked(below) => got, failed := below.Read(b, at);
      }
      n := length + got;
      ReadOn(was, b[..], lo, at, piece, got, n, old(Below()), Below());
    }

    function OriginalDestination(): (d: string)
      requires Valid()
      reads this, Repr
      ensures bottom.destination == if d == "" && bottom.destination.None? then None else Some(d)
      decreases Repr
    {
      match conn
      case Raw(raw) => DestinationOf(raw)
      case Stacked(below) => below.OriginalDestination()
    }
  }

  function DestinationOf(raw: RawConn): string {
    if raw.destination.Some? then raw.destination.value else ""
  }

  /** A stream after looking for length bytes ahead when only got of them arrived. */
  function Padded(stream: Bytes, got: nat, length: nat): Bytes
    requires got <= length && got <= |stream|
  {
    stream[..got] + Zeros(length - got) + stream[got..]
  }

  lemma PeekedIsPadded(b: Bytes, got: nat, stream: Bytes, rest: Bytes)
    requires ReadInto(Zeros(|b|), b, 0, got, stream, rest)
    ensures b + rest == Padded(stream, got, |b|)
    ensures got == |b| ==> b == stream[..got]
  {
    assert Zeros(|b|)[got..] == Zeros(|b| - got);
    assert b == stream[..got] + Zeros(|b| - got);
  }

  /** Looking ahead is invisible if and only if all the bytes arrived. */
  lemma PaddingShows(stream: Bytes, got: nat, length: nat)
    requires got <= length && got <= |stream|
    ensures Padded(stream, got, length) == stream <==> got == length
  {
    if got == length {
      assert Padded(stream, got, length) == stream[..got] + stream[got..];
    } else {
      assert |Padded(stream, got, length)| == |stream| + length - got;
    }
  }

  function Total(sizes: seq<nat>): nat {
    if sizes == [] then 0 else Total(sizes[..|sizes| - 1]) + sizes[|sizes| - 1]
  }

  /** Any number of reads, into buffers of any sizes, returns the stream, and at least what
      was read ahead if the buffers have room for it. */
  method ReadRepeatedly(conn: Peeker, sizes: seq<nat>) returns (received: Bytes)
    requires conn.Valid()
    modifies conn.Repr
    ensures conn.Valid() && conn.Repr == old(conn.Repr)
    ensures received + conn.Stream() == old(conn.Stream())
    ensures |received| >= old(conn.Ahead()) || |received| == Total(sizes)
  {
    received := [];
    ghost var ahead, stream := conn.Ahead(), conn.Stream();
    assert sizes[..0] == [];
    for i := 0 to |sizes|
      invariant conn.Valid() && conn.Repr == old(conn.Repr)
      invariant received + conn.Stream() == stream
      invariant conn.Ahead() + |received| >= ahead
      invariant conn.Ahead() > 0 ==> |received| == Total(sizes[..i])
    {
      var piece, _ := ReadOnce(conn, sizes[i]);
      Regroup(received, piece, conn.Stream());
      received := received + piece;
      assert sizes[..i + 1][..i] == sizes[..i];
    }
    assert sizes[..|sizes|] == sizes;
  }

  /** One read into a new buffer. */
  method ReadOnce(conn: Peeker, size: nat) returns (piece: Bytes, failed: bool)
    requires conn.Valid()
    modifies conn.Repr
    ensures conn.Valid() && conn.Repr == old(conn.Repr)
    ensures piece + conn.Stream() == old(conn.Stream())
    ensures OneRead(old(conn.Ahead()), size, |piece|, failed, old(conn.Last()), conn.Last())
    ensures conn.Ahead() == Left(old(conn.Ahead()), size)
  {
    var b := new Byte[size](_ => 0);
    ghost var stream := conn.Stream();
    var n;
    n, failed := conn.Read(b, 0);
    assert b[..n] == stream[..n] && stream == stream[..n] + stream[n..];
    piece := b[..n];
  }

  /** Reading within a piece is reading the stream that starts with it. */
  lemma ReadWithin(was: Bytes, lo: nat, n: nat, piece: Bytes, stream: Bytes)
    requires lo + n <= |was| && n <= |piece|
    ensures ReadInto(was, Fill(was, lo, piece[..n]), lo, n, piece + stream, piece[n..] + stream)
  {
    assert (piece + stream)[..n] == piece[..n];
    assert (piece + stream)[n..] == piece[n..] + stream;
  }

  /** A whole piece and then a read of what follows is one read of total bytes. */
  lemma ReadOn(was: Bytes, b: Bytes, lo: nat, at: nat, piece: Bytes, n: nat, total: nat, stream: Bytes, rest: Bytes)
    requires at == lo + |piece| <= |was| && total == |piece| + n
    requires ReadInto(Fill(was, lo, piece), b, at, n, stream, rest)
    ensures ReadInto(was, b, lo, total, piece + stream, rest)
  {
    assert (piece + stream)[..total] == piece + stream[..n];
  }
}
