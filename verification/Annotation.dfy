/** Annotation injection into audit events, over an abstract codec. */
module Annotation {
  import opened Basics

  type Labels = map<string, string>

  /** An audit event: its annotations, None when it has no map at all, and everything else. */
  datatype Event = Event(rest: Bytes, annotations: Option<Labels>)

  datatype EventList = EventList(meta: Bytes, items: seq<Event>)

  datatype Codec = Codec(decode: Bytes -> Option<EventList>, encode: EventList -> Option<Bytes>)

  /** Encoding does not tell an empty annotation map from none. */
  predicate Canonical(l: EventList) {
    forall i | 0 <= i < |l.items| :: l.items[i].annotations != Some(map[])
  }

  ghost predicate RoundTrips(c: Codec) {
    forall l :: Canonical(l) && c.encode(l).Some? ==> c.decode(c.encode(l).value) == Some(l)
  }

  // ----- specification -----

  function Existing(e: Event): Labels { if e.annotations.Some? then e.annotations.value else map[] }

  /** The injected annotations win over existing ones. */
  function Merged(e: Event, ann: Labels): Event { e.(annotations := Some(Existing(e) + ann)) }

  function Injected(l: EventList, ann: Labels): EventList {
    l.(items := seq(|l.items|, i requires 0 <= i < |l.items| => Merged(l.items[i], ann)))
  }

  function Processed(c: Codec, ann: Labels, data: Bytes): Option<Bytes> {
    if ann == map[] then Some(data)
    else
      var l := c.decode(data);
      if l.None? then None else c.encode(Injected(l.value, ann))
  }

  // ----- the injector on heap objects -----

  /** A Go map: a reference to a mutable table. */
  class Table {
    var entries: Labels

    constructor (entries: Labels)
      ensures this.entries == entries
    {
      this.entries := entries;
    }
  }

  /** A decoded event whose annotation map may be nil. */
  class Item {
    const rest: Bytes
    var annotations: Table?

    constructor (rest: Bytes, annotations: Table?)
      ensures this.rest == rest && this.annotations == annotations
    {
      this.rest, this.annotations := rest, annotations;
    }
  }

  ghost function ValueOf(e: Item): Event
    reads e, e.annotations
  {
    Event(e.rest, if e.annotations == null then None else Some(e.annotations.entries))
  }

  /** Items and their tables are all distinct, and none is the injector's own table. */
  ghost predicate Separate(items: seq<Item>, own: Table)
    reads items
  {
    && (forall i, j | 0 <= i < j < |items| :: items[i] != items[j])
    && (forall i, j | 0 <= i < j < |items| && items[i].annotations != null ::
          items[i].annotations != items[j].annotations)
    && (forall i | 0 <= i < |items| :: items[i].annotations != own)
  }

  ghost function Tables(items: seq<Item>): set<object>
    reads items
  {
    set i | 0 <= i < |items| && items[i].annotations != null :: items[i].annotations
  }

  method InjectOne(e: Item, own: Table)
    requires e.annotations != own
    modifies e, e.annotations
    ensures own.entries == old(own.entries) && ValueOf(e) == Merged(old(ValueOf(e)), own.entries)
    ensures e.annotations != null
    ensures if old(e.annotations) == null then fresh(e.annotations) else e.annotations == old(e.annotations)
  {
    if e.annotations == null {
      e.annotations := new Table(map[]);
    }
    e.annotations.entries := e.annotations.entries + own.entries;
  }

  /** The in-place loop over the events: merges the injector's table into each event's own. */
  method InjectAll(items: seq<Item>, own: Table)
    requires Separate(items, own)
    modifies items, Tables(items)
    ensures own.entries == old(own.entries)
    ensures forall i | 0 <= i < |items| :: ValueOf(items[i]) == Merged(old(ValueOf(items[i])), own.entries)
  {
    for k := 0 to |items|
      invariant own.entries == old(own.entries)
      invariant forall i | 0 <= i < k :: items[i].annotations != null
      invariant forall i | 0 <= i < k && old(items[i].annotations) != null ::
          items[i].annotations == old(items[i].annotations)
      invariant forall i | 0 <= i < k && old(items[i].annotations) == null :: fresh(items[i].annotations)
      invariant forall i, j | 0 <= i < j < |items| && items[i].annotations != null ::
          items[i].annotations != items[j].annotations
      invariant forall i | k <= i < |items| :: items[i].annotations == old(items[i].annotations)
      invariant forall i | k <= i < |items| && items[i].annotations != null ::
          items[i].annotations.entries == old(ValueOf(items[i])).annotations.value
      invariant forall i | 0 <= i < k :: ValueOf(items[i]) == Merged(old(ValueOf(items[i])), own.entries)
    {
      InjectOne(items[k], own);
    }
  }

  /** Allocates the decoded list as heap objects. */
  method Materialize(events: seq<Event>) returns (items: seq<Item>)
    ensures |items| == |events| && forall i | 0 <= i < |items| :: fresh(items[i]) && ValueOf(items[i]) == events[i]
    ensures forall i | 0 <= i < |items| :: items[i].annotations != null ==> fresh(items[i].annotations)
    ensures forall i, j | 0 <= i < j < |items| :: items[i] != items[j]
    ensures forall i, j | 0 <= i < j < |items| && items[i].annotations != null ::
      items[i].annotations != items[j].annotations
  {
    items := [];
    for k := 0 to |events|
      invariant |items| == k && forall i | 0 <= i < k :: fresh(items[i]) && ValueOf(items[i]) == events[i]
      invariant forall i | 0 <= i < k :: items[i].annotations != null ==> fresh(items[i].annotations)
      invariant forall i, j | 0 <= i < j < k :: items[i] != items[j]
      invariant forall i, j | 0 <= i < j < k && items[i].annotations != null ::
          items[i].annotations != items[j].annotations
    {
      var table: Table? := null;
      if events[k].annotations.Some? {
        table := new Table(events[k].annotations.value);
      }
      var item := new Item(events[k].rest, table);
      items := items + [item];
    }
  }

  class Injector {
    const annotations: Table

    constructor (annotations: Table)
      ensures this.annotations == annotations
    {
      this.annotations := annotations;
    }

    /** Decode, inject in place, encode; no table that existed before is changed. */
    method Process(c: Codec, data: Bytes) returns (r: Option<Bytes>)
      ensures r == Processed(c, annotations.entries, data)
    {
      if annotations.entries == map[] {
        return Some(data);
      }
      var l := c.decode(data);
      if l.None? {
        return None;
      }
      var items := Materialize(l.value.items);
      InjectAll(items, annotations);
      var events := Snapshot(items);
      assert events == Injected(l.value, annotations.entries).items;
      return c.encode(EventList(l.value.meta, events));
    }
  }

  method Snapshot(items: seq<Item>) returns (events: seq<Event>)
    ensures |events| == |items| && forall i | 0 <= i < |items| :: events[i] == ValueOf(items[i])
  {
    events := [];
    for k := 0 to |items|
      invariant |events| == k && forall i | 0 <= i < k :: events[i] == ValueOf(items[i])
    {
      var e := items[k];
      events := events + [Event(e.rest, if e.annotations == null then None else Some(e.annotations.entries))];
    }
  }

  // ----- algebra -----

  lemma InjectedIsCanonical(l: EventList, ann: Labels)
    requires ann != map[]
    ensures Canonical(Injected(l, ann))
  {
    var k :| k in ann;
    forall i | 0 <= i < |l.items| ensures Injected(l, ann).items[i].annotations != Some(map[]) {
      assert k in Existing(l.items[i]) + ann;
    }
  }

  /** Processing keeps the number and order of events and everything but their annotations,
      which become the right-biased merge. */
  lemma ProcessingMerges(c: Codec, ann: Labels, data: Bytes, l: EventList, out: Bytes)
    requires RoundTrips(c) && ann != map[] && c.decode(data) == Some(l) && Processed(c, ann, data) == Some(out)
    ensures c.decode(out) == Some(Injected(l, ann))
    ensures var m := Injected(l, ann);
      && m.meta == l.meta && |m.items| == |l.items|
      && forall i | 0 <= i < |l.items| ::
           && m.items[i].rest == l.items[i].rest && m.items[i].annotations.Some?
           && var labels := m.items[i].annotations.value;
              && labels.Keys == Existing(l.items[i]).Keys + ann.Keys
              && forall k | k in labels :: labels[k] == if k in ann then ann[k] else Existing(l.items[i])[k]
  {
    InjectedIsCanonical(l, ann);
  }

  /** When processing succeeds, for lists of any length: always without annotations to inject;
      otherwise exactly if the body decodes and the codec encodes the list that keeps everything
      but the annotations, which are merged.  `m` is that list. */
  lemma ProcessingSucceeds(c: Codec, ann: Labels, data: Bytes, m: EventList)
    requires c.decode(data).Some? ==>
      var l := c.decode(data).value;
      && m.meta == l.meta && |m.items| == |l.items|
      && forall i | 0 <= i < |l.items| ::
           && m.items[i].rest == l.items[i].rest
           && m.items[i].annotations ==
                Some((if l.items[i].annotations.Some? then l.items[i].annotations.value else map[]) + ann)
    ensures ann == map[] ==> Processed(c, ann, data) == Some(data)
    ensures ann != map[] ==> Processed(c, ann, data) == if c.decode(data).Some? then c.encode(m) else None
  {
    if c.decode(data).Some? {
      assert m.items == Injected(c.decode(data).value, ann).items;
    }
  }

  /** The codec encodes every list. */
  ghost predicate EncodesAll(c: Codec) { forall l :: c.encode(l).Some? }

  /** With such a codec, exactly the bodies that decode are processed. */
  lemma DecodableIsProcessed(c: Codec, ann: Labels, data: Bytes)
    requires EncodesAll(c)
    ensures Processed(c, ann, data).Some? <==> ann == map[] || c.decode(data).Some?
  {
    if c.decode(data).Some? {
      ProcessingSucceeds(c, ann, data, Injected(c.decode(data).value, ann));
    }
  }

  lemma InjectTwice(l: EventList, a: Labels, b: Labels)
    ensures Injected(Injected(l, a), b) == Injected(l, a + b)
  {
    forall i | 0 <= i < |l.items| ensures Merged(Merged(l.items[i], a), b) == Merged(l.items[i], a + b) {
      var e := Existing(l.items[i]);
      assert (e + a) + b == e + (a + b);
    }
    assert Injected(Injected(l, a), b).items == Injected(l, a + b).items;
  }

  /** Chaining two injectors is one injector with the merged annotations. */
  lemma ChainingMerges(c: Codec, a: Labels, b: Labels, data: Bytes)
    requires RoundTrips(c) && Processed(c, a, data).Some?
    ensures Processed(c, b, Processed(c, a, data).value) == Processed(c, a + b, data)
  {
    if a == map[] {
      assert a + b == b;
    } else if b == map[] {
      assert a + b == a;
    } else {
      var l := c.decode(data).value;
      ProcessingMerges(c, a, data, l, Processed(c, a, data).value);
      InjectTwice(l, a, b);
      assert a + b != map[] by {
        var k :| k in a;
        assert k in a + b;
      }
    }
  }

  /** Processing twice is processing once. */
  lemma ProcessingIsIdempotent(c: Codec, ann: Labels, data: Bytes)
    requires RoundTrips(c) && Processed(c, ann, data).Some?
    ensures Processed(c, ann, Processed(c, ann, data).value) == Processed(c, ann, data)
  {
    ChainingMerges(c, ann, ann, data);
    assert ann + ann == ann;
  }
}
