/**
 Walking a grant table.  Go visits a map in no fixed order, so each walk here
 picks keys arbitrarily; what comes out is pinned down only by its contract.
 */
module Listing {
  import opened Names
  import opened Ttl
  import opened Grants

  // recs holds each record of held exactly once, in any order.
  ghost predicate Lists(recs: seq<Record>, held: map<string, Record>) {
    && (forall r :: r in recs ==> r.name in held && held[r.name] == r)
    && (forall n :: n in held ==> held[n].name == n && held[n] in recs)
    && (forall i, j :: 0 <= i < j < |recs| ==> recs[i].name != recs[j].name)
  }

  ghost predicate Named(held: map<string, Record>) {
    forall n :: n in held ==> held[n].name == n
  }

  function NameOf(rec: Record): string {
    rec.name
  }

  predicate IsDue(rec: Record, now: int) {
    !IsZero(rec.deadline) && rec.deadline <= now
  }

  function DueOf(held: map<string, Record>, now: int): map<string, Record> {
    map n | n in held && IsDue(held[n], now) :: held[n]
  }

  // The scan of Due before sorting, and of SnapshotCopy and List when every record is wanted.
  method CollectDue(held: map<string, Record>, now: int) returns (out: seq<Record>)
    requires Named(held)
    ensures Lists(out, DueOf(held, now))
  {
    out := [];
    var rest := held.Keys;
    while rest != {}
      invariant rest <= held.Keys
      invariant forall r :: r in out ==> r.name in held && held[r.name] == r && IsDue(r, now) && r.name !in rest
      invariant forall n :: n in held && n !in rest && IsDue(held[n], now) ==> held[n] in out
      invariant forall i, j :: 0 <= i < j < |out| ==> out[i].name != out[j].name
      decreases rest
    {
      var n :| n in rest;
      rest := rest - {n};
      if IsDue(held[n], now) {
        out := out + [held[n]];
      }
    }
  }

  method CollectAll(held: map<string, Record>) returns (out: seq<Record>)
    requires Named(held)
    ensures Lists(out, held)
  {
    out := [];
    var rest := held.Keys;
    while rest != {}
      invariant rest <= held.Keys
      invariant forall r :: r in out ==> r.name in held && held[r.name] == r && r.name !in rest
      invariant forall n :: n in held && n !in rest ==> held[n] in out
      invariant forall i, j :: 0 <= i < j < |out| ==> out[i].name != out[j].name
      decreases rest
    {
      var n :| n in rest;
      rest := rest - {n};
      out := out + [held[n]];
    }
  }

  method SortByName(recs: seq<Record>, ghost held: map<string, Record>) returns (out: seq<Record>)
    requires Lists(recs, held)
    ensures SortedBy(out, NameOf) && Lists(out, held)
  {
    out := [];
    for i := 0 to |recs|
      invariant SortedBy(out, NameOf)
      invariant forall r :: r in out <==> r in recs[..i]
    {
      out := InsertBy(out, recs[i], NameOf);
    }
    assert recs[..|recs|] == recs;
    SortedIsDistinct(out);
  }

  lemma SortedIsDistinct(recs: seq<Record>)
    requires SortedBy(recs, NameOf)
    ensures forall i, j :: 0 <= i < j < |recs| ==> recs[i].name != recs[j].name
  {
    forall i, j | 0 <= i < j < |recs|
      ensures recs[i].name != recs[j].name
    {
      LessTotal(recs[i].name, recs[j].name);
    }
  }

  // Every record of a sorted listing is its first or comes after it.
  lemma HeadIsLeast(a: seq<Record>, r: Record)
    requires SortedBy(a, NameOf) && r in a
    ensures r == a[0] || Less(a[0].name, r.name)
  {
    var i :| 0 <= i < |a| && a[i] == r;
  }

  lemma HeadsAreEqual(a: seq<Record>, b: seq<Record>, held: map<string, Record>)
    requires SortedBy(a, NameOf) && SortedBy(b, NameOf) && Lists(a, held) && Lists(b, held) && a != [] && b != []
    ensures a[0] == b[0]
  {
    assert a[0] in a && b[0] in b;
    assert held[a[0].name] in b && held[b[0].name] in a;
    HeadIsLeast(b, a[0]);
    HeadIsLeast(a, b[0]);
    LessTotal(a[0].name, b[0].name);
  }

  lemma BothEmpty(a: seq<Record>, b: seq<Record>, held: map<string, Record>)
    requires Lists(a, held) && Lists(b, held) && a != []
    ensures b != []
  {
    assert a[0] in a && held[a[0].name] in b;
  }

  // Whatever order the map was visited in, the sorted listing is the same.
  lemma {:induction false} SortedListingIsUnique(a: seq<Record>, b: seq<Record>, held: map<string, Record>)
    requires SortedBy(a, NameOf) && SortedBy(b, NameOf) && Lists(a, held) && Lists(b, held)
    ensures a == b
    decreases |a|
  {
    if a != [] {
      BothEmpty(a, b, held);
      HeadsAreEqual(a, b, held);
      TailLists(a, held);
      TailLists(b, held);
      SortedListingIsUnique(a[1..], b[1..], held - {a[0].name});
    } else if b != [] {
      BothEmpty(b, a, held);
    }
  }

  lemma TailLists(recs: seq<Record>, held: map<string, Record>)
    requires recs != [] && Lists(recs, held)
    ensures Lists(recs[1..], held - {recs[0].name})
  {
    forall n | n in held && n != recs[0].name
      ensures held[n] in recs[1..]
    {
      assert held[n] in recs;
      var i :| 0 <= i < |recs| && recs[i] == held[n];
      assert held[n] == recs[1..][i - 1];
    }
    forall r | r in recs[1..]
      ensures r.name in held && held[r.name] == r && r.name != recs[0].name
    {
      var i :| 0 <= i < |recs[1..]| && recs[1..][i] == r;
      assert r == recs[i + 1];
    }
  }

  // Table.Restore as a fold over the listed records.
  function RestoreHeld(recs: seq<Record>): map<string, Record> {
    if recs == [] then map[]
    else RestoreHeld(recs[..|recs| - 1])[recs[|recs| - 1].name := recs[|recs| - 1]]
  }

  lemma {:induction false} RestoreHeldContents(recs: seq<Record>)
    requires forall i, j :: 0 <= i < j < |recs| ==> recs[i].name != recs[j].name
    ensures forall n :: n in RestoreHeld(recs) ==> RestoreHeld(recs)[n] in recs && RestoreHeld(recs)[n].name == n
    ensures forall r :: r in recs ==> r.name in RestoreHeld(recs) && RestoreHeld(recs)[r.name] == r
  {
    if recs != [] {
      var init, last := recs[..|recs| - 1], recs[|recs| - 1];
      RestoreHeldContents(init);
      assert recs == init + [last];
    }
  }

  // Restoring a snapshot, taken in any order, gives back the very table.
  lemma RestoreUndoesSnapshot(recs: seq<Record>, t: Table)
    requires Lists(recs, t.held)
    ensures Table(RestoreHeld(recs), t.next) == t
  {
    RestoreHeldContents(recs);
  }
}
