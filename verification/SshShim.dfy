/** The SSH shim: after its request the client reads until the server's SSH banner marker shows up,
    drops what came before, and hands on a connection that replays the rest. */
module SshShim {
  import opened Bytes

  const CHUNK := 4096

  // ----- The marker -----

  // The marker stands at position i.
  predicate At(s: seq<byte>, marker: seq<byte>, i: nat) {
    i + |marker| <= |s| && s[i..i + |marker|] == marker
  }

  ghost predicate First(s: seq<byte>, marker: seq<byte>, i: nat) {
    At(s, marker, i) && forall j: nat :: j < i ==> !At(s, marker, j)
  }

  ghost predicate Absent(s: seq<byte>, marker: seq<byte>) {
    forall j: nat :: !At(s, marker, j)
  }

  method Find(s: seq<byte>, marker: seq<byte>) returns (r: Option<nat>)
    ensures r.Some? ==> First(s, marker, r.value)
    ensures r.None? ==> Absent(s, marker)
  {
    var i := 0;
    while i + |marker| <= |s|
      invariant forall j: nat :: j < i ==> !At(s, marker, j)
    {
      if s[i..i + |marker|] == marker {
        return Some(i);
      }
      i := i + 1;
    }
    return None;
  }

  // Where the marker stands in the part received is where it stands in the whole.
  lemma AtPrefix(s: seq<byte>, k: nat, marker: seq<byte>, i: nat)
    requires k <= |s|
    ensures At(s[..k], marker, i) <==> At(s, marker, i) && i + |marker| <= k
  {
    if i + |marker| <= k {
      assert s[..k][i..i + |marker|] == s[i..i + |marker|];
    }
  }

  lemma FirstPrefix(s: seq<byte>, k: nat, marker: seq<byte>, i: nat)
    requires k <= |s|
    ensures First(s[..k], marker, i) <==> First(s, marker, i) && i + |marker| <= k
  {
    forall j: nat ensures At(s[..k], marker, j) <==> At(s, marker, j) && j + |marker| <= k {
      AtPrefix(s, k, marker, j);
    }
  }

  // ----- The connection -----

  // What one read meets: bytes, at most so many, or a fault. A list of these that ends is a server
  // that falls silent until the client gives up.
  datatype Arrival = Upto(most: nat) | Fault

  // The number of bytes a read brings: none only at the end of the stream.
  function Size(left: nat, most: nat, room: nat): (n: nat)
    ensures n <= left && n <= room && (room > 0 ==> (n == 0 <==> left == 0))
    ensures 0 < most <= left && most <= room ==> n == most
  {
    var n := if most == 0 then 1 else most;
    var m := if n < left then n else left;
    if m < room then m else room
  }

  // The positions in the server's stream that successive reads reach, up to the end of the stream,
  // a fault, or the end of the list.
  function Cuts(left: nat, from: nat, arrivals: seq<Arrival>): seq<nat> {
    if arrivals == [] || arrivals[0].Fault? || left == 0 then []
    else
      var n := Size(left, arrivals[0].most, 4096);
      [from + n] + Cuts(left - n, from + n, arrivals[1..])
  }

  // Some read ends between the marker's end and the limit.
  ghost predicate CutWithin(cuts: seq<nat>, low: nat, high: nat) {
    exists k :: 0 <= k < |cuts| && low <= cuts[k] <= high
  }

  lemma {:induction false} CutsGrow(left: nat, from: nat, arrivals: seq<Arrival>)
    ensures forall k :: 0 <= k < |Cuts(left, from, arrivals)| ==> from < Cuts(left, from, arrivals)[k] <= from + left
  {
    if !(arrivals == [] || arrivals[0].Fault? || left == 0) {
      var n := Size(left, arrivals[0].most, CHUNK);
      CutsGrow(left - n, from + n, arrivals[1..]);
    }
  }

  lemma CutWithinCons(cut: nat, cuts: seq<nat>, low: nat, high: nat)
    ensures CutWithin([cut] + cuts, low, high) <==> low <= cut <= high || CutWithin(cuts, low, high)
  {
    var all := [cut] + cuts;
    if low <= cut <= high {
      assert all[0] == cut;
    }
    if CutWithin(cuts, low, high) {
      var k :| 0 <= k < |cuts| && low <= cuts[k] <= high;
      assert all[k + 1] == cuts[k];
    }
  }

  // What the reads still to come decide: with the stream read to `from` and no marker in that part,
  // whether one of them ends within the bounds.
  ghost predicate StillOpen(server: seq<byte>, from: nat, arrivals: seq<Arrival>, low: nat, high: nat)
    requires from <= |server|
  {
    CutWithin(Cuts(|server| - from, from, arrivals), low, high)
  }

  lemma OneRead(server: seq<byte>, from: nat, arrivals: seq<Arrival>, low: nat, high: nat)
    requires from <= |server| && arrivals != [] && arrivals[0].Upto?
    ensures var n := Size(|server| - from, arrivals[0].most, CHUNK);
            && (n > 0 && from + n <= high ==>
                  (StillOpen(server, from, arrivals, low, high) <==>
                   low <= from + n || StillOpen(server, from + n, arrivals[1..], low, high)))
            && (n == 0 || from + n > high ==> !StillOpen(server, from, arrivals, low, high))
  {
    var n := Size(|server| - from, arrivals[0].most, CHUNK);
    if n > 0 {
      CutWithinCons(from + n, Cuts(|server| - from - n, from + n, arrivals[1..]), low, high);
      CutsGrow(|server| - from - n, from + n, arrivals[1..]);
    }
  }

  // The shim's connection: a prefix to replay, then the server's stream from where it was read to.
  class PrefixedTcp {
    const server: seq<byte>
    var position: nat
    const prefix: seq<byte>
    var cursor: nat

    predicate Valid() reads this { position <= |server| && cursor <= |prefix| }

    // The bytes still to come.
    function Unread(): seq<byte>
      requires Valid()
      reads this
    {
      prefix[cursor..] + server[position..]
    }

    constructor (server: seq<byte>, position: nat, prefix: seq<byte>)
      requires position <= |server|
      ensures Valid() && Unread() == prefix + server[position..] && this.server == server
    {
      this.server, this.position, this.prefix, cursor := server, position, prefix, 0;
    }

    // poll_read into a buffer with so much room: the next bytes, whether from the prefix or the
    // stream, and none only if there is no room or nothing to come.
    method PollRead(room: nat, most: nat) returns (out: seq<byte>)
      requires Valid()
      modifies this
      ensures Valid() && out + Unread() == old(Unread())
      ensures |out| <= room && (out == [] <==> room == 0 || old(Unread()) == [])
    {
      var remaining := |prefix| - cursor;
      if remaining > 0 {
        var count := if remaining < room then remaining else room;
        out := prefix[cursor..cursor + count];
        assert prefix[cursor..] == out + prefix[cursor + count..];
        cursor := cursor + count;
        return;
      }
      var n := Size(|server| - position, most, room);
      out := server[position..position + n];
      assert server[position..] == out + server[position + n..];
      position := position + n;
    }

    // Any sequence of reads returns the bytes to come, in order and each once: at least one for each
    // buffer with room, until there are no more.
    method ReadMany(rooms: seq<nat>, most: nat -> nat) returns (got: seq<byte>)
      requires Valid()
      modifies this
      ensures Valid() && got + Unread() == old(Unread())
      ensures |got| >= Positive(rooms) || got == old(Unread())
    {
      got := [];
      for i := 0 to |rooms|
        invariant Valid() && got + Unread() == old(Unread())
        invariant |got| >= Positive(rooms[..i]) || Unread() == []
      {
        var out := PollRead(rooms[i], most(i));
        Cut3(got, out, Unread());
        OneMoreRoom(rooms, i);
        got := got + out;
      }
      assert rooms[..|rooms|] == rooms;
      assert Unread() == [] ==> got + Unread() == got;
    }
  }

  // The number of buffers that have room.
  function Positive(rooms: seq<nat>): nat {
    if rooms == [] then 0
    else Positive(rooms[..|rooms| - 1]) + if rooms[|rooms| - 1] > 0 then 1 else 0
  }

  lemma OneMoreRoom(rooms: seq<nat>, i: nat)
    requires i < |rooms|
    ensures Positive(rooms[..i + 1]) == Positive(rooms[..i]) + if rooms[i] > 0 then 1 else 0
  {
    assert rooms[..i + 1][..i] == rooms[..i];
  }

  // ----- Opening -----

  // Where the first marker ends; beyond the limit if there is none.
  ghost function MarkerEnd(server: seq<byte>, marker: seq<byte>, limit: nat): (n: nat)
    ensures forall at: nat :: First(server, marker, at) ==> n == at + |marker|
    ensures (forall at: nat :: !First(server, marker, at)) ==> n == limit + 1
  {
    if at: nat :| First(server, marker, at) then OnlyFirst(server, marker, at); at + |marker| else limit + 1
  }

  lemma OnlyFirst(server: seq<byte>, marker: seq<byte>, at: nat)
    requires First(server, marker, at)
    ensures forall other: nat :: First(server, marker, other) ==> other == at
  {
    forall other: nat | First(server, marker, other) ensures other == at {
      assert At(server, marker, at) && At(server, marker, other);
    }
  }

  lemma NotYet(server: seq<byte>, marker: seq<byte>, limit: nat, k: nat)
    requires k <= |server| && k <= limit && Absent(server[..k], marker)
    ensures MarkerEnd(server, marker, limit) > k
  {
    if at: nat :| First(server, marker, at) {
      FirstPrefix(server, k, marker, at);
    }
  }

  // open_shim, from the first read on. The marker is not empty and fits the limit: the endpoint is
  // refused otherwise. It succeeds exactly when the marker occurs in the server's stream and some
  // read ends behind its first occurrence within the limit; what is then to come is the server's
  // stream from that occurrence on, for every way the bytes arrive.
  method OpenShim(server: seq<byte>, marker: seq<byte>, limit: nat, arrivals: seq<Arrival>) returns (r: PrefixedTcp?)
    requires 0 < |marker| <= limit
    ensures r != null ==>
              fresh(r) && r.Valid() &&
              exists at: nat :: First(server, marker, at) && r.Unread() == server[at..]
    ensures r != null <==> StillOpen(server, 0, arrivals, MarkerEnd(server, marker, limit), limit)
  {
    ghost var low := MarkerEnd(server, marker, limit);
    var position, i := 0, 0;
    assert arrivals[0..] == arrivals;
    while true
      invariant position <= |server| && position <= limit && i <= |arrivals| && position < low
      invariant StillOpen(server, 0, arrivals, low, limit) <==> StillOpen(server, position, arrivals[i..], low, limit)
      decreases |arrivals| - i
    {
      if i == |arrivals| || arrivals[i].Fault? {
        return null;
      }
      OneRead(server, position, arrivals[i..], low, limit);
      var n := Size(|server| - position, arrivals[i].most, CHUNK);
      if n == 0 || position + n > limit {
        return null;
      }
      assert arrivals[i..][1..] == arrivals[i + 1..];
      position, i := position + n, i + 1;
      var found := Find(server[..position], marker);
      if found.Some? {
        var at := found.value;
        FirstPrefix(server, position, marker, at);
        var prefix := server[..position][at..];
        r := new PrefixedTcp(server, position, prefix);
        assert prefix + server[position..] == server[at..];
        return;
      }
      NotYet(server, marker, limit, position);
    }
  }

  // Opening and then reading with any buffer sizes: what is read is the server's stream from the
  // first marker on, all of it once there are as many buffers with room as bytes.
  method Session(server: seq<byte>, marker: seq<byte>, limit: nat, arrivals: seq<Arrival>,
                 rooms: seq<nat>, most: nat -> nat) returns (r: Option<seq<byte>>)
    requires 0 < |marker| <= limit
    ensures r.Some? <==> StillOpen(server, 0, arrivals, MarkerEnd(server, marker, limit), limit)
    ensures r.Some? ==> exists at: nat :: First(server, marker, at) && ReadFrom(server[at..], rooms, r.value)
  {
    var shim := OpenShim(server, marker, limit, arrivals);
    if shim == null {
      return None;
    }
    ghost var all := shim.Unread();
    var got := shim.ReadMany(rooms, most);
    assert ReadFrom(all, rooms, got);
    return Some(got);
  }

  // The front of `all`, at least one byte for each buffer with room as long as there are any.
  predicate ReadFrom(all: seq<byte>, rooms: seq<nat>, got: seq<byte>) {
    got <= all && (|got| >= Positive(rooms) || got == all) && (Positive(rooms) >= |all| ==> got == all)
  }
}
