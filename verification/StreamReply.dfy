/** Flattening Redis replies into stream entries, as the worker loop does with XREADGROUP and XAUTOCLAIM. */
module StreamReply {
  datatype Value = Nil | Int(n: int) | Simple(text: string) | Bulk(text: string) | Array(items: seq<Value>)

  datatype StreamEntry = StreamEntry(id: string, payload: string)

  /** An array the walk takes for one stream entry: an id and a field list that starts with two bulk strings. */
  predicate IsEntry(v: Value) {
    && v.Array? && |v.items| == 2 && v.items[0].Bulk? && v.items[1].Array?
    && |v.items[1].items| >= 2 && v.items[1].items[0].Bulk? && v.items[1].items[1].Bulk?
  }

  function EntryOf(v: Value): StreamEntry
    requires IsEntry(v)
  {
    StreamEntry(v.items[0].text, v.items[1].items[1].text)
  }

  function Flatten(v: Value): seq<StreamEntry> {
    if IsEntry(v) then [EntryOf(v)]
    else if v.Array? then FlattenAll(v.items)
    else []
  }

  function FlattenAll(vs: seq<Value>): seq<StreamEntry> {
    if vs == [] then [] else Flatten(vs[0]) + FlattenAll(vs[1..])
  }

  lemma {:induction false} FlattenAllConcat(a: seq<Value>, b: seq<Value>)
    ensures FlattenAll(a + b) == FlattenAll(a) + FlattenAll(b)
    decreases |a|
  {
    if a == [] {
      assert a + b == b;
    } else {
      assert (a + b)[0] == a[0] && (a + b)[1..] == a[1..] + b;
      FlattenAllConcat(a[1..], b);
    }
  }

  lemma {:induction false} FlattenSnoc(vs: seq<Value>, k: nat)
    requires k < |vs|
    ensures FlattenAll(vs[..k + 1]) == FlattenAll(vs[..k]) + Flatten(vs[k])
  {
    assert vs[..k + 1] == vs[..k] + [vs[k]];
    FlattenAllConcat(vs[..k], [vs[k]]);
    assert FlattenAll([vs[k]]) == Flatten(vs[k]) + FlattenAll([vs[k]][1..]);
  }

  // -------------------------------------------------------------------------
  // The walk
  // -------------------------------------------------------------------------

  class Extractor {
    var out: seq<StreamEntry>

    constructor ()
      ensures out == []
    {
      out := [];
    }

    method Walk(v: Value)
      modifies this
      ensures out == old(out) + Flatten(v)
      decreases v
    {
      if v.Array? {
        var items := v.items;
        if |items| == 2 && items[0].Bulk? && items[1].Array? {
          var fields := items[1].items;
          if |fields| >= 2 && fields[0].Bulk? && fields[1].Bulk? {
            out := out + [StreamEntry(items[0].text, fields[1].text)];
            return;
          }
        }
        for k := 0 to |items|
          invariant out == old(out) + FlattenAll(items[..k])
        {
          FlattenSnoc(items, k);
          Walk(items[k]);
        }
        assert items[..|items|] == items;
      }
    }
  }

  method ExtractStreamEntries(values: seq<Value>) returns (entries: seq<StreamEntry>)
    ensures entries == FlattenAll(values)
  {
    var extractor := new Extractor();
    for k := 0 to |values|
      invariant fresh(extractor)
      invariant extractor.out == FlattenAll(values[..k])
    {
      FlattenSnoc(values, k);
      extractor.Walk(values[k]);
    }
    assert values[..|values|] == values;
    entries := extractor.out;
  }

  // -------------------------------------------------------------------------
  // Replies, as Redis encodes them
  // -------------------------------------------------------------------------

  /** One slot of an entry list: an entry, possibly with further fields, or the nil left by a deleted one. */
  datatype Slot = Held(entry: StreamEntry, field: string, further: seq<Value>) | Gone

  function EncodeSlot(s: Slot): Value {
    match s
    case Held(e, field, further) => Array([Bulk(e.id), Array([Bulk(field), Bulk(e.payload)] + further)])
    case Gone => Nil
  }

  function EncodeSlots(slots: seq<Slot>): (vs: seq<Value>)
    ensures |vs| == |slots|
    ensures forall i | 0 <= i < |slots| :: vs[i] == EncodeSlot(slots[i])
  {
    if slots == [] then [] else [EncodeSlot(slots[0])] + EncodeSlots(slots[1..])
  }

  function EntriesIn(slots: seq<Slot>): seq<StreamEntry> {
    if slots == [] then [] else (if slots[0].Held? then [slots[0].entry] else []) + EntriesIn(slots[1..])
  }

  /** XREADGROUP on one stream: the stream's name with its entries. */
  function ReadGroupReply(stream: string, slots: seq<Slot>): seq<Value> {
    [Array([Bulk(stream), Array(EncodeSlots(slots))])]
  }

  /** XAUTOCLAIM: the next cursor, the claimed entries, the ids deleted from the stream. */
  function AutoClaimReply(cursor: string, slots: seq<Slot>, deleted: seq<string>): seq<Value> {
    [Bulk(cursor), Array(EncodeSlots(slots)), Array(Bulks(deleted))]
  }

  function Bulks(texts: seq<string>): (vs: seq<Value>)
    ensures |vs| == |texts|
    ensures forall i | 0 <= i < |texts| :: vs[i] == Bulk(texts[i])
  {
    if texts == [] then [] else [Bulk(texts[0])] + Bulks(texts[1..])
  }

  /** The walk takes for entries exactly what Redis encodes for one, and reads the entry back. */
  lemma {:induction false} EntryExactly(v: Value)
    ensures IsEntry(v) <==> exists s: Slot :: s.Held? && v == EncodeSlot(s)
    ensures forall s: Slot | s.Held? && v == EncodeSlot(s) :: IsEntry(v) && EntryOf(v) == s.entry
  {
    if IsEntry(v) {
      var fields := v.items[1].items;
      var s := Held(EntryOf(v), fields[0].text, fields[2..]);
      assert [Bulk(s.field), Bulk(s.entry.payload)] + s.further == fields;
      assert v == EncodeSlot(s);
    }
  }

  lemma {:induction false} FlattenSlots(slots: seq<Slot>)
    ensures FlattenAll(EncodeSlots(slots)) == EntriesIn(slots)
  {
    if slots != [] {
      FlattenSlots(slots[1..]);
    }
  }

  lemma {:induction false} FlattenBulks(texts: seq<string>)
    ensures FlattenAll(Bulks(texts)) == []
  {
    if texts != [] {
      FlattenBulks(texts[1..]);
    }
  }

  lemma {:induction false} FlattenOne(v: Value, vs: seq<Value>)
    ensures FlattenAll([v] + vs) == Flatten(v) + FlattenAll(vs)
  {
    assert ([v] + vs)[1..] == vs;
  }

  lemma {:induction false} FlattenList(slots: seq<Slot>)
    ensures Flatten(Array(EncodeSlots(slots))) == EntriesIn(slots)
  {
    FlattenSlots(slots);
    assert !IsEntry(Array(EncodeSlots(slots)));
  }

  /** Reading gives back exactly the entries, in order, however many there are. */
  lemma {:induction false} ReadGroupRoundTrip(stream: string, slots: seq<Slot>)
    ensures FlattenAll(ReadGroupReply(stream, slots)) == EntriesIn(slots)
  {
    var list := Array(EncodeSlots(slots));
    var reply := Array([Bulk(stream), list]);
    assert !IsEntry(reply);
    FlattenList(slots);
    FlattenThree(Bulk(stream), list, Nil);
    FlattenOne(reply, []);
    assert [reply] + [] == [reply];
  }

  lemma {:induction false} FlattenThree(a: Value, b: Value, c: Value)
    ensures FlattenAll([a, b]) == Flatten(a) + Flatten(b)
    ensures FlattenAll([a, b, c]) == Flatten(a) + Flatten(b) + Flatten(c)
  {
    hide Flatten;
    FlattenOne(b, []);
    FlattenOne(c, []);
    FlattenOne(b, [c]);
    FlattenOne(a, [b]);
    FlattenOne(a, [b, c]);
    assert [a] + [b] == [a, b] && [a] + [b, c] == [a, b, c] && [b] + [c] == [b, c] && [b] + [] == [b]
        && [c] + [] == [c];
  }

  /** Claiming gives back exactly the entries: the cursor and the deleted ids, even two of them, add nothing. */
  lemma {:induction false} AutoClaimRoundTrip(cursor: string, slots: seq<Slot>, deleted: seq<string>)
    ensures FlattenAll(AutoClaimReply(cursor, slots, deleted)) == EntriesIn(slots)
  {
    var list := Array(EncodeSlots(slots));
    var ids := Array(Bulks(deleted));
    FlattenList(slots);
    FlattenBulks(deleted);
    assert !IsEntry(ids);
    assert Flatten(ids) == [] && Flatten(Bulk(cursor)) == [];
    hide Flatten, EncodeSlots, EntriesIn;
    FlattenThree(Bulk(cursor), list, ids);
  }

  // -------------------------------------------------------------------------
  // Nothing is made up
  // -------------------------------------------------------------------------

  /** `w` is `v` or nested somewhere inside it. */
  ghost predicate Inside(w: Value, v: Value) {
    w == v || (v.Array? && exists i | 0 <= i < |v.items| :: Inside(w, v.items[i]))
  }

  /** Whatever the reply, every extracted entry is an entry-shaped array somewhere in it. */
  lemma {:induction false} ExtractedIsPresent(vs: seq<Value>, e: StreamEntry) returns (i: nat, w: Value)
    requires e in FlattenAll(vs)
    ensures i < |vs| && Inside(w, vs[i]) && IsEntry(w) && EntryOf(w) == e
    decreases vs
  {
    if e in Flatten(vs[0]) {
      i := 0;
      if IsEntry(vs[0]) {
        w := vs[0];
      } else {
        var j;
        j, w := ExtractedIsPresent(vs[0].items, e);
        assert Inside(w, vs[0].items[j]);
      }
    } else {
      i, w := ExtractedIsPresent(vs[1..], e);
      i := i + 1;
    }
  }
}
