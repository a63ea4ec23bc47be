/** The cache of DNS messages: answers are kept for 45 seconds under the query without its ID. */
module DnsCache {
  import opened Bytes

  // Instants and spans are in nanoseconds.
  const TTL: nat := 45_000_000_000
  const MAX_ENTRIES: nat := 512

  datatype Entry = Entry(at: nat, body: seq<byte>)

  type Table = map<seq<byte>, Entry>

  function Key(query: seq<byte>): seq<byte>
    requires |query| >= 12
  {
    query[2..]
  }

  // The answer with the ID of the query that is asked now.
  function Readdressed(query: seq<byte>, body: seq<byte>): (out: seq<byte>)
    requires |query| >= 2
    ensures |out| == |body|
    ensures |body| >= 2 ==> out[..2] == query[..2] && out[2..] == body[2..]
  {
    if |body| < 2 then body else body[0 := query[0]][1 := query[1]]
  }

  predicate Expired(e: Entry, now: nat) { now > e.at + TTL }

  function AfterGet(t: Table, query: seq<byte>, now: nat): Table {
    if |query| >= 12 && Key(query) in t && Expired(t[Key(query)], now) then t - {Key(query)} else t
  }

  function AfterPut(t: Table, query: seq<byte>, response: seq<byte>, now: nat): Table {
    if !Acceptable(query, response) then t
    else (if |t| >= MAX_ENTRIES then map[] else t)[Key(query) := Entry(now, response)]
  }

  predicate Acceptable(query: seq<byte>, response: seq<byte>) { |query| >= 12 && |response| >= 12 }

  class Cache {
    var table: Table

    ghost predicate Valid() reads this { |table| <= MAX_ENTRIES }

    constructor ()
      ensures Valid() && table == map[]
    {
      table := map[];
    }

    method Get(query: seq<byte>, now: nat) returns (r: Option<seq<byte>>)
      requires Valid()
      modifies this
      ensures Valid() && table == AfterGet(old(table), query, now)
      ensures r.Some? <==> |query| >= 12 && Key(query) in old(table) && !Expired(old(table)[Key(query)], now)
      ensures r.Some? ==> r.value == Readdressed(query, old(table)[Key(query)].body)
    {
      if |query| < 12 {
        return None;
      }
      var key := query[2..];
      if key !in table {
        return None;
      }
      var entry := table[key];
      if now > entry.at + TTL {
        RemoveShrinks(table, key);
        table := table - {key};
        return None;
      }
      var out := entry.body;
      if |out| >= 2 {
        out := out[0 := query[0]];
        out := out[1 := query[1]];
      }
      return Some(out);
    }

    method Put(query: seq<byte>, response: seq<byte>, now: nat)
      requires Valid()
      modifies this
      ensures Valid() && table == AfterPut(old(table), query, response, now)
    {
      if |query| < 12 || |response| < 12 {
        return;
      }
      if |table| >= MAX_ENTRIES {
        table := map[];
      }
      InsertGrows(table, query[2..], Entry(now, response));
      table := table[query[2..] := Entry(now, response)];
    }
  }

  lemma InsertGrows(t: Table, key: seq<byte>, e: Entry)
    ensures |t[key := e]| <= |t| + 1
  {
    assert t[key := e].Keys == t.Keys + {key};
  }

  lemma RemoveShrinks(t: Table, key: seq<byte>)
    ensures |t - {key}| <= |t|
  {
    assert (t - {key}).Keys == t.Keys - {key};
    if key in t {
      assert t.Keys == (t.Keys - {key}) + {key};
    } else {
      assert t.Keys - {key} == t.Keys;
    }
  }

  // ----- Whole histories -----

  datatype Op =
    | Get(query: seq<byte>, at: nat)
    | Put(query: seq<byte>, response: seq<byte>, at: nat)

  function After(t: Table, op: Op): Table {
    match op
    case Get(query, at) => AfterGet(t, query, at)
    case Put(query, response, at) => AfterPut(t, query, response, at)
  }

  // The table after the first n operations.
  function At(ops: seq<Op>, n: nat): Table
    requires n <= |ops|
  {
    if n == 0 then map[] else After(At(ops, n - 1), ops[n - 1])
  }

  // What a get finds after them.
  function Answer(ops: seq<Op>, query: seq<byte>, now: nat): Option<seq<byte>> {
    var t := At(ops, |ops|);
    if |query| >= 12 && Key(query) in t && !Expired(t[Key(query)], now)
    then Some(Readdressed(query, t[Key(query)].body)) else None
  }

  // Time does not go back.
  predicate Ordered(ops: seq<Op>, now: nat) {
    forall i :: 0 <= i < |ops| ==> ops[i].at <= now && forall j :: 0 <= j < i ==> ops[j].at <= ops[i].at
  }

  // An accepted put for the key.
  predicate Puts(op: Op, key: seq<byte>) {
    op.Put? && |op.query| >= 12 && |op.response| >= 12 && op.query[2..] == key
  }

  // Operation i is the last accepted put for the key among the first n.
  predicate Latest(ops: seq<Op>, key: seq<byte>, i: nat, n: nat) {
    i < n <= |ops| && Puts(ops[i], key) && forall j :: i < j < n ==> !Puts(ops[j], key)
  }

  // Operation j finds the table full and empties it.
  predicate Clears(ops: seq<Op>, j: nat)
    requires j < |ops|
  {
    ops[j].Put? && |ops[j].query| >= 12 && |ops[j].response| >= 12 && |At(ops, j)| >= 512
  }

  predicate ClearedSince(ops: seq<Op>, i: nat, n: nat)
    requires n <= |ops|
  {
    exists j :: i < j < n && Clears(ops, j)
  }

  lemma {:induction false} NeverOverfull(ops: seq<Op>, n: nat)
    requires n <= |ops|
    ensures |At(ops, n)| <= 512
  {
    if n > 0 {
      NeverOverfull(ops, n - 1);
      var t, op := At(ops, n - 1), ops[n - 1];
      if op.Get? && |op.query| >= 12 {
        RemoveShrinks(t, Key(op.query));
      } else if op.Put? && Acceptable(op.query, op.response) {
        InsertGrows(if |t| >= MAX_ENTRIES then map[] else t, Key(op.query), Entry(op.at, op.response));
      }
    }
  }

  // What is in the table is the latest accepted put, and nothing has emptied the table since.
  lemma {:induction false} EntryIsLatest(ops: seq<Op>, key: seq<byte>, n: nat) returns (i: nat)
    requires n <= |ops| && key in At(ops, n)
    ensures Latest(ops, key, i, n) && !ClearedSince(ops, i, n)
    ensures At(ops, n)[key] == Entry(ops[i].at, ops[i].response)
  {
    if Puts(ops[n - 1], key) {
      i := n - 1;
    } else {
      i := EntryIsLatest(ops, key, n - 1);
    }
  }

  // And the latest accepted put is in the table while it is fresh, unless the table was emptied.
  lemma {:induction false} LatestIsEntry(ops: seq<Op>, key: seq<byte>, i: nat, n: nat, now: nat)
    requires Latest(ops, key, i, n) && Ordered(ops, now)
    requires now <= ops[i].at + 45_000_000_000 && !ClearedSince(ops, i, n)
    ensures key in At(ops, n) && At(ops, n)[key] == Entry(ops[i].at, ops[i].response)
    decreases n
  {
    if i < n - 1 {
      assert !Clears(ops, n - 1);
      LatestIsEntry(ops, key, i, n - 1, now);
    }
  }

  // In every history a hit is the answer of the latest accepted put for the same question, at most
  // 45 seconds old, with nothing changed but the ID; and it is a hit exactly when there is such a
  // put and the table was not emptied since.
  lemma HitIff(ops: seq<Op>, query: seq<byte>, now: nat, out: seq<byte>)
    requires Ordered(ops, now)
    ensures Answer(ops, query, now) == Some(out) <==>
            |query| >= 12 && exists i: nat :: Serves(ops, i, query, now, out)
  {
    var n := |ops|;
    if Answer(ops, query, now) == Some(out) {
      var i := EntryIsLatest(ops, Key(query), n);
      SameAnswer(query, ops[i].response);
      assert Serves(ops, i, query, now, out);
    }
    if i: nat :| |query| >= 12 && Serves(ops, i, query, now, out) {
      LatestIsEntry(ops, Key(query), i, n, now);
      SameAnswer(query, ops[i].response);
    }
  }

  predicate Serves(ops: seq<Op>, i: nat, query: seq<byte>, now: nat, out: seq<byte>)
    requires |query| >= 12
  {
    && Latest(ops, Key(query), i, |ops|) && now <= ops[i].at + 45_000_000_000 && !ClearedSince(ops, i, |ops|)
    && out == query[..2] + ops[i].response[2..]
  }

  lemma SameAnswer(query: seq<byte>, body: seq<byte>)
    requires |query| >= 2 && |body| >= 2
    ensures Readdressed(query, body) == query[..2] + body[2..]
  {
    var r := Readdressed(query, body);
    assert r == r[..2] + r[2..];
  }
}
