/**
 Shallow record validation and the order-preserving filter `send` applies
 to a list of records (AsyncHttpConsumer._validate and the list
 comprehension in AsyncHttpConsumer.send).
 */
module Validator {
  import opened Records
  import opened Sequences

  /** The outcome of validating one record: the verdict and what was logged. */
  datatype Checked = Checked(ok: bool, events: seq<Event>)

  /** Validation of one record. It fails exactly when some top-level value is
      a mapping, and each failure logs the whole record once. */
  function Validate(r: Record): (c: Checked)
    ensures c.ok <==> Flat(r)
    ensures c.ok ==> c.events == []
    ensures !c.ok ==> c.events == [ValidationReject(r)]
  {
    if exists k | k in r :: r[k].Map? then Checked(false, [ValidationReject(r)])
    else Checked(true, [])
  }

  /** The validation loop as the source writes it: walk the entries and stop
      at the first nested mapping. The order of the walk is arbitrary, and the
      verdict does not depend on it. */
  method ValidateScan(r: Record) returns (ok: bool, events: seq<Event>)
    ensures ok <==> Flat(r)
    ensures events == if ok then [] else [ValidationReject(r)]
  {
    var pending := r.Keys;
    while pending != {}
      invariant pending <= r.Keys
      invariant forall k | k in r.Keys - pending :: !r[k].Map?
      decreases pending
    {
      var k :| k in pending;
      if r[k].Map? {
        assert r[k] in r.Values;
        return false, [ValidationReject(r)];
      }
      pending := pending - {k};
    }
    forall v | v in r.Values
      ensures !v.Map?
    {
      var k :| k in r && r[k] == v;
    }
    return true, [];
  }

  /** A mapping value anywhere at the top level rejects the record. */
  lemma NestedMapRejected(r: Record, k: string, inner: map<string, Value>)
    ensures !Validate(r[k := Map(inner)]).ok
  {
    assert r[k := Map(inner)][k] in r[k := Map(inner)].Values;
  }

  /** A list value never causes a rejection, whatever the list holds (even
      mappings): setting a key to a list validates exactly as the record
      without that key does. */
  lemma ListsNotInspected(r: Record, k: string, items: seq<Value>)
    ensures Validate(r[k := List(items)]).ok == Validate(r - {k}).ok
  {
    var with := r[k := List(items)];
    var without := r - {k};
    if Flat(without) {
      forall v | v in with.Values
        ensures !v.Map?
      {
        var j :| j in with && with[j] == v;
        if j != k {
          assert without[j] == v;
        }
      }
    } else {
      var v :| v in without.Values && v.Map?;
      var j :| j in without && without[j] == v;
      assert with[j] == v;
    }
  }

  /** The result of filtering a list of records: the records kept and the
      rejections logged, in list order. */
  datatype Filtered = Filtered(kept: seq<Record>, events: seq<Event>)

  /** The records named by a log made only of validation rejections. */
  function RejectedRecords(events: seq<Event>): (rs: seq<Record>)
    requires forall i | 0 <= i < |events| :: events[i].ValidationReject?
    ensures |rs| == |events|
    ensures forall i | 0 <= i < |events| :: events[i] == ValidationReject(rs[i])
  {
    seq(|events|, i requires 0 <= i < |events| => events[i].record)
  }

  /** What filtering `items` must yield, stated without saying how: the list
      splits into the kept records, all flat, and the rejected records, none
      flat, each part keeping its order within the list. `FilterSpecUnique`
      shows that this determines the result. */
  ghost predicate FilterSpec(items: seq<Record>, kept: seq<Record>, events: seq<Event>) {
    && (forall i | 0 <= i < |kept| :: Flat(kept[i]))
    && (forall i | 0 <= i < |events| :: events[i].ValidationReject? && !Flat(events[i].record))
    && SubseqOf(kept, items)
    && SubseqOf(RejectedRecords(events), items)
    && |kept| + |events| == |items|
  }

  /** The specification carries over when a flat record is put in front and
      kept. */
  lemma FilterSpecKeep(h: Record, t: seq<Record>, kept: seq<Record>, events: seq<Event>)
    requires Flat(h)
    requires FilterSpec(t, kept, events)
    ensures FilterSpec([h] + t, [h] + kept, events)
  {
    SubseqBoth(h, kept, t);
    SubseqSkip(h, RejectedRecords(events), t);
  }

  /** The specification carries over when a record that is not flat is put
      in front and rejected. */
  lemma FilterSpecReject(h: Record, t: seq<Record>, kept: seq<Record>, events: seq<Event>)
    requires !Flat(h)
    requires FilterSpec(t, kept, events)
    ensures FilterSpec([h] + t, kept, [ValidationReject(h)] + events)
  {
    SubseqSkip(h, kept, t);
    SubseqBoth(h, RejectedRecords(events), t);
    assert RejectedRecords([ValidationReject(h)] + events) == [h] + RejectedRecords(events);
  }

  /** The list comprehension of `send`: keep the records that validate, in
      their order, logging one rejection per dropped record. */
  function FilterRecords(items: seq<Record>): (f: Filtered)
    ensures FilterSpec(items, f.kept, f.events)
    decreases |items|
  {
    if |items| == 0 then Filtered([], [])
    else
      var head, tail := items[0], items[1..];
      var c := Validate(head);
      var rest := FilterRecords(tail);
      assert items == [head] + tail;
      if c.ok then
        FilterSpecKeep(head, tail, rest.kept, rest.events);
        Filtered([head] + rest.kept, rest.events)
      else
        FilterSpecReject(head, tail, rest.kept, rest.events);
        Filtered(rest.kept, c.events + rest.events)
  }

  /** Filtering a list whose records are all flat keeps it whole and logs
      nothing. */
  lemma {:induction false} FilterKeepsFlat(items: seq<Record>)
    requires forall i | 0 <= i < |items| :: Flat(items[i])
    ensures FilterRecords(items) == Filtered(items, [])
    decreases |items|
  {
    if |items| > 0 {
      FilterKeepsFlat(items[1..]);
      assert [items[0]] + items[1..] == items;
    }
  }

  /** Filtering is idempotent: a filtered batch passes the filter unchanged
      and without new log events. */
  lemma FilterIdempotent(items: seq<Record>)
    ensures FilterRecords(FilterRecords(items).kept) == Filtered(FilterRecords(items).kept, [])
  {
    FilterKeepsFlat(FilterRecords(items).kept);
  }

  /** One step of the filter: the first record is kept or rejected on its
      own, ahead of whatever the rest of the list yields. */
  lemma FilterCons(h: Record, t: seq<Record>)
    ensures FilterRecords([h] + t) ==
      if Flat(h) then Filtered([h] + FilterRecords(t).kept, FilterRecords(t).events)
      else Filtered(FilterRecords(t).kept, [ValidationReject(h)] + FilterRecords(t).events)
  {
    assert ([h] + t)[0] == h;
    assert ([h] + t)[1..] == t;
  }

  /** The inductive step of `FilterAppend` when the new first record is
      kept. */
  lemma FilterAppendKept(h: Record, t: seq<Record>, b: seq<Record>)
    requires Flat(h)
    requires FilterRecords(t + b) ==
      Filtered(FilterRecords(t).kept + FilterRecords(b).kept, FilterRecords(t).events + FilterRecords(b).events)
    ensures FilterRecords([h] + (t + b)) ==
      Filtered(([h] + FilterRecords(t).kept) + FilterRecords(b).kept, FilterRecords(t).events + FilterRecords(b).events)
  {
    var front, back := FilterRecords(t), FilterRecords(b);
    FilterCons(h, t + b);
    ConsAssoc(h, front.kept, back.kept);
  }

  /** The inductive step of `FilterAppend` when the new first record is
      rejected. */
  lemma FilterAppendRejected(h: Record, t: seq<Record>, b: seq<Record>)
    requires !Flat(h)
    requires FilterRecords(t + b) ==
      Filtered(FilterRecords(t).kept + FilterRecords(b).kept, FilterRecords(t).events + FilterRecords(b).events)
    ensures FilterRecords([h] + (t + b)) ==
      Filtered(FilterRecords(t).kept + FilterRecords(b).kept, ([ValidationReject(h)] + FilterRecords(t).events) + FilterRecords(b).events)
  {
    var front, back := FilterRecords(t), FilterRecords(b);
    FilterCons(h, t + b);
    ConsAssoc(ValidationReject(h), front.events, back.events);
  }

  /** Filtering distributes over concatenation: records from an earlier part
      of the list stay ahead of records from a later part, and so do their
      rejections. */
  lemma {:induction false} FilterAppend(a: seq<Record>, b: seq<Record>)
    ensures FilterRecords(a + b) ==
      Filtered(FilterRecords(a).kept + FilterRecords(b).kept, FilterRecords(a).events + FilterRecords(b).events)
    decreases |a|
  {
    if |a| == 0 {
      assert a + b == b;
    } else {
      var h, t := a[0], a[1..];
      assert a == [h] + t;
      assert a + b == [h] + (t + b);
      FilterAppend(t, b);
      FilterCons(h, t);
      if Flat(h) {
        FilterAppendKept(h, t, b);
      } else {
        FilterAppendRejected(h, t, b);
      }
    }
  }

  /** How many records of `items` are flat (`want`) or not (`!want`). */
  function CountWhere(items: seq<Record>, want: bool): nat {
    if |items| == 0 then 0
    else (if Flat(items[0]) == want then 1 else 0) + CountWhere(items[1..], want)
  }

  lemma {:induction false} CountSplit(items: seq<Record>)
    ensures CountWhere(items, true) + CountWhere(items, false) == |items|
    decreases |items|
  {
    if |items| > 0 {
      CountSplit(items[1..]);
    }
  }

  /** A subsequence of `items` made only of records on one side of the
      flatness test is no longer than that side of `items`. */
  lemma {:induction false} SubseqCount(s: seq<Record>, items: seq<Record>, want: bool)
    requires SubseqOf(s, items)
    requires forall i | 0 <= i < |s| :: Flat(s[i]) == want
    ensures |s| <= CountWhere(items, want)
    decreases |items|
  {
    if |s| > 0 {
      if s[0] == items[0] && SubseqOf(s[1..], items[1..]) {
        SubseqCount(s[1..], items[1..], want);
      } else {
        SubseqCount(s, items[1..], want);
      }
    }
  }

  /** Two subsequences of `items` that both take every record on one side of
      the flatness test, and nothing else, are the same sequence. */
  lemma {:induction false} SubseqMaximal(s1: seq<Record>, s2: seq<Record>, items: seq<Record>, want: bool)
    requires SubseqOf(s1, items) && SubseqOf(s2, items)
    requires forall i | 0 <= i < |s1| :: Flat(s1[i]) == want
    requires forall i | 0 <= i < |s2| :: Flat(s2[i]) == want
    requires |s1| == CountWhere(items, want) && |s2| == CountWhere(items, want)
    ensures s1 == s2
    decreases |items|
  {
    if |items| > 0 {
      var h, t := items[0], items[1..];
      if Flat(h) == want {
        if !(s1[0] == h && SubseqOf(s1[1..], t)) {
          SubseqCount(s1, t, want);
          assert false;
        }
        if !(s2[0] == h && SubseqOf(s2[1..], t)) {
          SubseqCount(s2, t, want);
          assert false;
        }
        SubseqMaximal(s1[1..], s2[1..], t, want);
        assert s1 == [h] + s1[1..] && s2 == [h] + s2[1..];
      } else {
        assert |s1| > 0 ==> s1[0] != h;
        assert |s2| > 0 ==> s2[0] != h;
        SubseqMaximal(s1, s2, t, want);
      }
    }
  }

  /** The filter specification has at most one solution for each list. */
  lemma FilterSpecUnique(items: seq<Record>, kept1: seq<Record>, events1: seq<Event>,
                         kept2: seq<Record>, events2: seq<Event>)
    requires FilterSpec(items, kept1, events1)
    requires FilterSpec(items, kept2, events2)
    ensures kept1 == kept2 && events1 == events2
  {
    var rejected1, rejected2 := RejectedRecords(events1), RejectedRecords(events2);
    CountSplit(items);
    SubseqCount(kept1, items, true);
    SubseqCount(kept2, items, true);
    SubseqCount(rejected1, items, false);
    SubseqCount(rejected2, items, false);
    SubseqMaximal(kept1, kept2, items, true);
    SubseqMaximal(rejected1, rejected2, items, false);
    assert forall i | 0 <= i < |events1| :: events1[i] == ValidationReject(rejected1[i]) == events2[i];
  }

  /** The filter computes exactly the specified split: a candidate result
      meets the specification if and only if it is what the filter returns. */
  lemma FilterCharacterized(items: seq<Record>, kept: seq<Record>, events: seq<Event>)
    ensures FilterSpec(items, kept, events) <==> FilterRecords(items) == Filtered(kept, events)
  {
    if FilterSpec(items, kept, events) {
      var f := FilterRecords(items);
      FilterSpecUnique(items, kept, events, f.kept, f.events);
    }
  }
}
