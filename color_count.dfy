/** The pie chart's data: the number of records per colour, one entry per distinct colour
    in the order the colours first appear. */
module ColorCount {
  import opened Records
  import opened Counting

  datatype ColorCount = ColorCount(color: string, count: nat)

  function Colors(rs: seq<Record>): (cs: seq<string>)
    ensures |cs| == |rs| && forall i :: 0 <= i < |rs| ==> cs[i] == rs[i].color
  {
    seq(|rs|, i requires 0 <= i < |rs| => rs[i].color)
  }

  /** The entries, stated without the accumulator: each distinct colour in first-seen order,
      with the number of records of that colour. */
  function Entries(rs: seq<Record>): (es: seq<ColorCount>)
    ensures |es| <= |rs|
    ensures forall i :: 0 <= i < |es| ==> es[i].color in Colors(rs) && es[i].count >= 1
  {
    var d := Distinct(Colors(rs));
    var m := multiset(Colors(rs));
    DistinctElements(Colors(rs));
    DistinctLength(Colors(rs));
    var es := seq(|d|, i requires 0 <= i < |d| => ColorCount(d[i], m[d[i]]));
    assert forall i :: 0 <= i < |es| ==> es[i].color == d[i] && es[i].count == m[d[i]];
    assert forall i :: 0 <= i < |d| ==> d[i] in Colors(rs) && m[d[i]] >= 1 by {
      forall i | 0 <= i < |d| ensures d[i] in Colors(rs) && m[d[i]] >= 1 {
        assert d[i] in d;
        assert d[i] in m;
      }
    }
    es
  }

  /** The sum of the counts. */
  function TotalCount(entries: seq<ColorCount>): nat {
    Sum(seq(|entries|, i requires 0 <= i < |entries| => entries[i].count))
  }

  /** `q = rawData.reduce(...)` followed by `r = Object.entries(q).map(...)`: the first loop
      fills the object `s` key by key (a missing key counts as 0, then adds 1), `order` being the
      order in which its keys were created; the second lists its entries in that order. */
  method CountColors(rs: seq<Record>) returns (entries: seq<ColorCount>)
    ensures entries == Entries(rs)
  {
    var s: map<string, nat> := map[];
    var order: seq<string> := [];
    var i := 0;
    while i < |rs|
      invariant i <= |rs|
      invariant order == Distinct(Colors(rs)[..i])
      invariant forall c :: c in s <==> c in Colors(rs)[..i]
      invariant forall c :: c in s ==> s[c] == multiset(Colors(rs)[..i])[c]
    {
      var c := rs[i].color;
      var prev := if c in s then s[c] else 0;
      if c !in s {
        order := order + [c];
      }
      s := s[c := prev + 1];
      TallyStep(Colors(rs), i);
      i := i + 1;
    }
    assert Colors(rs)[..i] == Colors(rs);
    DistinctElements(Colors(rs));
    entries := seq(|order|, k requires 0 <= k < |order| => ColorCount(order[k], s[order[k]]));
  }

  /** What one more element does to the first-seen order and to the tally of a prefix. */
  lemma TallyStep(cs: seq<string>, i: nat)
    requires i < |cs|
    ensures Distinct(cs[..i + 1]) == if cs[i] in cs[..i] then Distinct(cs[..i]) else Distinct(cs[..i]) + [cs[i]]
    ensures multiset(cs[..i + 1]) == multiset(cs[..i]) + multiset{cs[i]}
    ensures forall c :: c in cs[..i + 1] <==> c in cs[..i] || c == cs[i]
  {
    assert cs[..i + 1] == cs[..i] + [cs[i]];
    assert cs[..i + 1][..i] == cs[..i];
  }

  /** One entry per distinct colour, each colour once; each count is the number of records of
      that colour and at least 1; together the counts account for every record. */
  lemma EntriesCountRecords(rs: seq<Record>)
    ensures forall c :: c in Colors(rs) <==> exists i :: 0 <= i < |Entries(rs)| && Entries(rs)[i].color == c
    ensures forall i, j :: 0 <= i < j < |Entries(rs)| ==> Entries(rs)[i].color != Entries(rs)[j].color
    ensures forall i :: 0 <= i < |Entries(rs)| ==>
      Entries(rs)[i].count == multiset(Colors(rs))[Entries(rs)[i].color] && Entries(rs)[i].count >= 1
    ensures TotalCount(Entries(rs)) == |rs|
  {
    var cs := Colors(rs);
    var d := Distinct(cs);
    var e := Entries(rs);
    DistinctElements(cs);
    forall c | c in cs
      ensures exists i :: 0 <= i < |e| && e[i].color == c
    {
      var i :| 0 <= i < |d| && d[i] == c;
      assert e[i].color == c;
    }
    forall i | 0 <= i < |e| ensures e[i].count >= 1 {
      assert d[i] in d;
    }
    assert seq(|e|, i requires 0 <= i < |e| => e[i].count) == Counts(d, multiset(cs));
    DistinctTally(cs);
  }

  /** Colours are listed in the order they first appear in the table. */
  lemma EntriesFirstSeenOrder(rs: seq<Record>, i: nat, j: nat)
    requires i < j < |Entries(rs)|
    ensures Entries(rs)[i].color in Colors(rs) && Entries(rs)[j].color in Colors(rs)
    ensures FirstIndex(Colors(rs), Entries(rs)[i].color) < FirstIndex(Colors(rs), Entries(rs)[j].color)
  {
    DistinctFirstSeenOrder(Colors(rs), i, j);
  }
}
