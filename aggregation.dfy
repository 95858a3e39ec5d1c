/** The bar view's derived data: records grouped by body style (`d3.nest`), one row of six
    generation counters per group, the rows stacked generation by generation (`d3.stack`),
    and the maxima that become the vertical domain. */
module Aggregation {
  import opened Records
  import opened Counting

  /** A generation column, 0-based: index `k` stands for the column `gen(k+1)`. */
  type GenIndex = k: int | 0 <= k < 6

  /** The text a record's generation must equal to be counted in column `k`. */
  const GenTags: seq<string> := ["1", "2", "3", "4", "5", "6"]

  /** The row keys after `bodyType`, in the order the rows are built and stacked. */
  const GenKeys: seq<string> := ["gen1", "gen2", "gen3", "gen4", "gen5", "gen6"]

  /** One `d3.nest` entry: a body style and its records in table order. */
  datatype Group = Group(key: string, values: seq<Record>)

  /** One row of `data`: `gens[k]` is the counter `gen(k+1)`. */
  datatype Row = Row(bodyType: string, gens: seq<nat>)

  /** One stacked rectangle: the `[lower, upper)` pair of column `key` for one body type. */
  datatype Segment = Segment(key: GenIndex, bodyType: string, lower: nat, upper: nat)

  lemma GenTagsDistinct()
    ensures NoDuplicates(GenTags)
  {
  }

  /** Each row key is `gen` followed by the tag of its column, so removing the `gen`
      prefix gives the tag back. */
  lemma GenKeysNameTags(k: GenIndex)
    ensures GenKeys[k] == "gen" + GenTags[k]
    ensures GenKeys[k][3..] == GenTags[k]
  {
  }

  function BodyStyles(rs: seq<Record>): (bs: seq<string>)
    ensures |bs| == |rs| && forall i :: 0 <= i < |rs| ==> bs[i] == rs[i].bodyStyle
  {
    seq(|rs|, i requires 0 <= i < |rs| => rs[i].bodyStyle)
  }

  function Generations(rs: seq<Record>): (gs: seq<string>)
    ensures |gs| == |rs| && forall i :: 0 <= i < |rs| ==> gs[i] == rs[i].generation
  {
    seq(|rs|, i requires 0 <= i < |rs| => rs[i].generation)
  }

  /** The records whose body style is `b`, in table order. */
  function WithBodyStyle(rs: seq<Record>, b: string): seq<Record> {
    if rs == [] then []
    else (if rs[0].bodyStyle == b then [rs[0]] else []) + WithBodyStyle(rs[1..], b)
  }

  /** The records whose generation is exactly the text `t` (strict string equality). */
  function WithGeneration(rs: seq<Record>, t: string): seq<Record> {
    if rs == [] then []
    else (if rs[0].generation == t then [rs[0]] else []) + WithGeneration(rs[1..], t)
  }

  /** The filter keeps exactly the records of body style `b`, as many as `b` occurs. */
  lemma {:induction false} WithBodyStyleCount(rs: seq<Record>, b: string)
    ensures |WithBodyStyle(rs, b)| == multiset(BodyStyles(rs))[b]
    ensures forall r :: r in WithBodyStyle(rs, b) ==> r in rs && r.bodyStyle == b
  {
    if rs != [] {
      WithBodyStyleCount(rs[1..], b);
      assert BodyStyles(rs) == [rs[0].bodyStyle] + BodyStyles(rs[1..]);
    }
  }

  /** The filter keeps every record of body style `b` as often as the table holds it, and
      no other record. */
  lemma {:induction false} WithBodyStyleMultiset(rs: seq<Record>, b: string)
    ensures forall r :: multiset(WithBodyStyle(rs, b))[r] == if r.bodyStyle == b then multiset(rs)[r] else 0
  {
    if rs != [] {
      WithBodyStyleMultiset(rs[1..], b);
      assert rs == [rs[0]] + rs[1..];
      assert multiset(rs) == multiset{rs[0]} + multiset(rs[1..]);
    }
  }

  lemma {:induction false} WithGenerationCount(rs: seq<Record>, t: string)
    ensures |WithGeneration(rs, t)| == multiset(Generations(rs))[t]
  {
    if rs != [] {
      WithGenerationCount(rs[1..], t);
      assert Generations(rs) == [rs[0].generation] + Generations(rs[1..]);
    }
  }

  /** Selecting a body style and then a generation selects the same records, in the same
      order, as selecting the generation first. */
  lemma {:induction false} FiltersCommute(rs: seq<Record>, b: string, t: string)
    ensures WithGeneration(WithBodyStyle(rs, b), t) == WithBodyStyle(WithGeneration(rs, t), b)
  {
    if rs != [] {
      FiltersCommute(rs[1..], b, t);
      var r := rs[0];
      var w := if r.bodyStyle == b then [r] else [];
      assert WithGeneration(w + WithBodyStyle(rs[1..], b), t)
          == WithGeneration(w, t) + WithGeneration(WithBodyStyle(rs[1..], b), t) by {
        WithGenerationAppend(w, WithBodyStyle(rs[1..], b), t);
      }
      var v := if r.generation == t then [r] else [];
      assert WithBodyStyle(v + WithGeneration(rs[1..], t), b)
          == WithBodyStyle(v, b) + WithBodyStyle(WithGeneration(rs[1..], t), b) by {
        WithBodyStyleAppend(v, WithGeneration(rs[1..], t), b);
      }
    }
  }

  lemma {:induction false} WithGenerationAppend(a: seq<Record>, c: seq<Record>, t: string)
    ensures WithGeneration(a + c, t) == WithGeneration(a, t) + WithGeneration(c, t)
  {
    if a == [] {
      assert a + c == c;
    } else {
      var h := if a[0].generation == t then [a[0]] else [];
      assert (a + c)[0] == a[0] && (a + c)[1..] == a[1..] + c;
      WithGenerationAppend(a[1..], c, t);
      calc {
        WithGeneration(a + c, t);
        h + WithGeneration(a[1..] + c, t);
        h + (WithGeneration(a[1..], t) + WithGeneration(c, t));
        (h + WithGeneration(a[1..], t)) + WithGeneration(c, t);
      }
    }
  }

  lemma {:induction false} WithBodyStyleAppend(a: seq<Record>, c: seq<Record>, b: string)
    ensures WithBodyStyle(a + c, b) == WithBodyStyle(a, b) + WithBodyStyle(c, b)
  {
    if a == [] {
      assert a + c == c;
    } else {
      var h := if a[0].bodyStyle == b then [a[0]] else [];
      assert (a + c)[0] == a[0] && (a + c)[1..] == a[1..] + c;
      WithBodyStyleAppend(a[1..], c, b);
      calc {
        WithBodyStyle(a + c, b);
        h + WithBodyStyle(a[1..] + c, b);
        h + (WithBodyStyle(a[1..], b) + WithBodyStyle(c, b));
        (h + WithBodyStyle(a[1..], b)) + WithBodyStyle(c, b);
      }
    }
  }

  /** `d3.nest` keyed by body style: one group per body style, groups in the
      order their key first appears, each group's records in table order. */
  function Nest(rs: seq<Record>): (groups: seq<Group>)
    ensures |groups| == |Distinct(BodyStyles(rs))|
  {
    var keys := Distinct(BodyStyles(rs));
    seq(|keys|, j requires 0 <= j < |keys| => Group(keys[j], WithBodyStyle(rs, keys[j])))
  }

  /** The sum of the group sizes. */
  function GroupSizes(groups: seq<Group>): nat {
    if groups == [] then 0 else |groups[0].values| + GroupSizes(groups[1..])
  }

  /** Nesting makes one non-empty group per distinct body style, keys pairwise distinct;
      each group holds every record of its body style, as often as the table does, and no
      other record, so every record lands in exactly one group. */
  lemma NestPartitions(rs: seq<Record>)
    ensures forall b :: b in BodyStyles(rs) <==> exists j :: 0 <= j < |Nest(rs)| && Nest(rs)[j].key == b
    ensures forall j, l :: 0 <= j < l < |Nest(rs)| ==> Nest(rs)[j].key != Nest(rs)[l].key
    ensures forall j :: 0 <= j < |Nest(rs)| ==>
      |Nest(rs)[j].values| > 0 &&
      forall r :: r in Nest(rs)[j].values ==> r in rs && r.bodyStyle == Nest(rs)[j].key
    ensures forall j, r :: 0 <= j < |Nest(rs)| ==>
      multiset(Nest(rs)[j].values)[r] == if r.bodyStyle == Nest(rs)[j].key then multiset(rs)[r] else 0
    ensures GroupSizes(Nest(rs)) == |rs|
  {
    var bs := BodyStyles(rs);
    var keys := Distinct(bs);
    var groups := Nest(rs);
    DistinctElements(bs);
    forall b | b in bs
      ensures exists j :: 0 <= j < |groups| && groups[j].key == b
    {
      var j :| 0 <= j < |keys| && keys[j] == b;
      assert groups[j].key == b;
    }
    forall j | 0 <= j < |groups|
      ensures |groups[j].values| > 0
      ensures forall r :: r in groups[j].values ==> r in rs && r.bodyStyle == groups[j].key
    {
      assert keys[j] in keys;
      WithBodyStyleCount(rs, keys[j]);
    }
    forall j, r | 0 <= j < |groups|
      ensures multiset(groups[j].values)[r] == if r.bodyStyle == groups[j].key then multiset(rs)[r] else 0
    {
      WithBodyStyleMultiset(rs, keys[j]);
    }
    var sizes := seq(|groups|, j requires 0 <= j < |groups| => |groups[j].values|);
    forall j | 0 <= j < |groups| ensures sizes[j] == Counts(keys, multiset(bs))[j] {
      WithBodyStyleCount(rs, keys[j]);
    }
    assert sizes == Counts(keys, multiset(bs));
    DistinctTally(bs);
    GroupSizesSum(groups);
  }

  lemma {:induction false} GroupSizesSum(groups: seq<Group>)
    ensures GroupSizes(groups) == Sum(seq(|groups|, j requires 0 <= j < |groups| => |groups[j].values|))
  {
    if groups != [] {
      GroupSizesSum(groups[1..]);
      var s := seq(|groups|, j requires 0 <= j < |groups| => |groups[j].values|);
      assert s[1..] == seq(|groups[1..]|, j requires 0 <= j < |groups[1..]| => |groups[1..][j].values|);
    }
  }

  /** Groups follow the first appearance of their key in the table. */
  lemma NestFirstSeenOrder(rs: seq<Record>, j: nat, l: nat)
    requires j < l < |Nest(rs)|
    ensures Nest(rs)[j].key in BodyStyles(rs) && Nest(rs)[l].key in BodyStyles(rs)
    ensures FirstIndex(BodyStyles(rs), Nest(rs)[j].key) < FirstIndex(BodyStyles(rs), Nest(rs)[l].key)
  {
    DistinctFirstSeenOrder(BodyStyles(rs), j, l);
  }

  /** One row of `data`: the counter `gen(k+1)` is the length of the group's records whose
      generation is exactly the tag of column `k`. */
  function ToRow(g: Group): (row: Row)
    ensures |row.gens| == 6
  {
    Row(g.key, seq(6, k requires 0 <= k < 6 => |WithGeneration(g.values, GenTags[k])|))
  }

  /** `data`: the rows built from the nested groups, in group order. */
  function Rows(rs: seq<Record>): (rows: seq<Row>)
    ensures |rows| == |Nest(rs)|
  {
    var groups := Nest(rs);
    seq(|groups|, j requires 0 <= j < |groups| => ToRow(groups[j]))
  }

  ghost predicate WellFormed(rows: seq<Row>) {
    forall j :: 0 <= j < |rows| ==> |rows[j].gens| == 6
  }

  /** The total of a row: its six counters added up. */
  function Total(row: Row): nat {
    Sum(row.gens)
  }

  /** Every row is built from a group: one row per distinct body style, in group order, each
      counter the number of records of that body style whose generation is exactly the tag. */
  lemma RowsCount(rs: seq<Record>)
    ensures WellFormed(Rows(rs))
    ensures Rows(rs) == [] <==> rs == []
    ensures forall j :: 0 <= j < |Rows(rs)| ==> Rows(rs)[j].bodyType == Nest(rs)[j].key
    ensures forall j, k :: 0 <= j < |Rows(rs)| && 0 <= k < 6 ==>
      Rows(rs)[j].gens[k] == |WithBodyStyle(WithGeneration(rs, GenTags[k]), Rows(rs)[j].bodyType)|
  {
    NestPartitions(rs);
    if rs != [] {
      assert rs[0].bodyStyle in BodyStyles(rs);
    }
    forall j, k | 0 <= j < |Rows(rs)| && 0 <= k < 6
      ensures Rows(rs)[j].gens[k] == |WithBodyStyle(WithGeneration(rs, GenTags[k]), Rows(rs)[j].bodyType)|
    {
      FiltersCommute(rs, Nest(rs)[j].key, GenTags[k]);
    }
  }

  /** A row's counters add up to at most its group's size: every record of the group is in
      the column of its generation, or in none when its generation is not one of '1'..'6'. */
  lemma RowTotalAccountsForGroup(g: Group)
    ensures Total(ToRow(g)) + CountOutside(GenTags, Generations(g.values)) == |g.values|
    ensures Total(ToRow(g)) <= |g.values|
  {
    var m := multiset(Generations(g.values));
    forall k | 0 <= k < 6 ensures ToRow(g).gens[k] == Counts(GenTags, m)[k] {
      WithGenerationCount(g.values, GenTags[k]);
    }
    assert ToRow(g).gens == Counts(GenTags, m);
    GenTagsDistinct();
    TallyCoversAll(GenTags, Generations(g.values));
  }

  /** The property names of a row object, in the order its literal creates them. */
  const RowKeys: seq<string> := ["bodyType"] + GenKeys

  /** The counter a row object holds under the property `name`: counter `k` under `GenKeys[k]`,
      none under `bodyType` or a name the row lacks. */
  function Counter(row: Row, name: string): (c: Option<nat>)
    requires |row.gens| == 6
    ensures c.Some? <==> name in RowKeys[1..]
  {
    if name in GenKeys then Some(row.gens[FirstIndex(GenKeys, name)]) else None
  }

  /** Each key names its own column: the first occurrence of `GenKeys[k]` is at `k`. */
  lemma GenKeysIndex(k: GenIndex)
    ensures FirstIndex(GenKeys, GenKeys[k]) == k
  {
    assert GenKeys[k] !in GenKeys[..k] by {
      forall l | 0 <= l < k ensures GenKeys[l] != GenKeys[k] {
        assert GenKeys[l][3] != GenKeys[k][3];
      }
    }
    FirstIndexUnique(GenKeys, GenKeys[k], k);
  }

  /** The stacking keys: the first row's property names after `bodyType`. Without a row there
      is no first row to take them from, and the script stops before any view is built. With
      one, the `k`-th key reads the counter `gen(k+1)` of every row and none names `bodyType`. */
  function LayerKeys(rows: seq<Row>): (keys: Option<seq<string>>)
    requires WellFormed(rows)
    ensures keys.None? <==> rows == []
    ensures keys.Some? ==> |keys.value| == 6 && "bodyType" !in keys.value
    ensures keys.Some? ==> forall k, j :: 0 <= k < 6 && 0 <= j < |rows| ==>
      Counter(rows[j], keys.value[k]) == Some(rows[j].gens[k])
  {
    if rows == [] then None
    else
      var keys := RowKeys[1..];
      assert keys == GenKeys;
      assert forall k :: 0 <= k < 6 ==> FirstIndex(GenKeys, keys[k]) == k by {
        forall k | 0 <= k < 6 ensures FirstIndex(GenKeys, keys[k]) == k {
          GenKeysIndex(k);
        }
      }
      Some(keys)
  }

  /** `d3.stack().keys(keys)(rows)` with the default order and offset, for the stacking keys
      of `LayerKeys` (see `StackFollowsLayerKeys`): layer `i` holds,
      for every row in row order, the running total before and after column `i`. */
  function Stack(rows: seq<Row>): (layers: seq<seq<Segment>>)
    requires WellFormed(rows)
    ensures |layers| == 6 && forall i :: 0 <= i < 6 ==> |layers[i]| == |rows|
  {
    seq(6, i requires 0 <= i < 6 =>
      seq(|rows|, j requires 0 <= j < |rows| =>
        Segment(i, rows[j].bodyType, Sum(rows[j].gens[..i]), Sum(rows[j].gens[..i + 1]))))
  }

  /** For each body type the segments tile `[0, total)` in column order: the first starts at
      0, each starts where the previous ends, each is as tall as its counter (the `d[1] - d[0]`
      of the bar's title), and the last ends at the row total. */
  lemma StackTiles(rows: seq<Row>, i: nat, j: nat)
    requires WellFormed(rows) && i < 6 && j < |rows|
    ensures Stack(rows)[i][j].key == i && Stack(rows)[i][j].bodyType == rows[j].bodyType
    ensures i == 0 ==> Stack(rows)[i][j].lower == 0
    ensures i > 0 ==> Stack(rows)[i][j].lower == Stack(rows)[i - 1][j].upper
    ensures Stack(rows)[i][j].upper - Stack(rows)[i][j].lower == rows[j].gens[i]
    ensures i == 5 ==> Stack(rows)[i][j].upper == Total(rows[j])
  {
    SumPrefixStep(rows[j].gens, i);
    assert rows[j].gens[..6] == rows[j].gens;
  }

  /** The layers follow the stacking keys: layer `i` is tagged with the `i`-th key, and each
      of its segments is as tall as the counter that key reads from its row. */
  lemma StackFollowsLayerKeys(rows: seq<Row>, i: nat, j: nat)
    requires WellFormed(rows) && i < 6 && j < |rows|
    ensures LayerKeys(rows).Some?
    ensures GenKeys[Stack(rows)[i][j].key] == LayerKeys(rows).value[i]
    ensures Counter(rows[j], LayerKeys(rows).value[i]).Some?
    ensures Stack(rows)[i][j].upper - Stack(rows)[i][j].lower == Counter(rows[j], LayerKeys(rows).value[i]).value
  {
    StackTiles(rows, i, j);
  }

  /** `d3.max` over a non-empty sequence: a member that no member exceeds. */
  function Max(xs: seq<nat>): (m: nat)
    requires xs != []
    ensures m in xs
    ensures forall x :: x in xs ==> x <= m
  {
    if |xs| == 1 then xs[0]
    else
      var rest := Max(xs[1..]);
      assert forall x :: x in xs ==> x == xs[0] || x in xs[1..];
      if xs[0] >= rest then xs[0] else rest
  }

  function Totals(rows: seq<Row>): seq<nat> {
    seq(|rows|, j requires 0 <= j < |rows| => Total(rows[j]))
  }

  /** One column of counters, one per row: the `count`s of the filtered view. */
  function Column(rows: seq<Row>, g: GenIndex): seq<nat>
    requires WellFormed(rows)
  {
    seq(|rows|, j requires 0 <= j < |rows| => rows[j].gens[g])
  }

  /** The overview's domain maximum: `d3.max` over the upper bounds of the last (top) layer. */
  function TopMax(layers: seq<seq<Segment>>): (m: nat)
    requires layers != [] && layers[|layers| - 1] != []
    ensures forall seg :: seg in layers[|layers| - 1] ==> seg.upper <= m
    ensures exists seg :: seg in layers[|layers| - 1] && seg.upper == m
  {
    var top := layers[|layers| - 1];
    var uppers := seq(|top|, j requires 0 <= j < |top| => top[j].upper);
    assert forall seg :: seg in top ==> seg.upper in uppers by {
      forall seg | seg in top ensures seg.upper in uppers {
        var j :| 0 <= j < |top| && top[j] == seg;
        assert uppers[j] == seg.upper;
      }
    }
    var m := Max(uppers);
    var j :| 0 <= j < |uppers| && uppers[j] == m;
    assert top[j] in top;
    m
  }

  /** The overview's domain maximum is the largest row total: at least every total, and equal
      to the total of some body type. */
  lemma TopMaxIsLargestTotal(rows: seq<Row>)
    requires WellFormed(rows) && rows != []
    ensures TopMax(Stack(rows)) == Max(Totals(rows))
    ensures forall j :: 0 <= j < |rows| ==> Total(rows[j]) <= TopMax(Stack(rows))
    ensures exists j :: 0 <= j < |rows| && Total(rows[j]) == TopMax(Stack(rows))
  {
    var top := Stack(rows)[5];
    forall j | 0 <= j < |rows| ensures top[j].upper == Total(rows[j]) {
      StackTiles(rows, 5, j);
    }
    assert seq(|top|, j requires 0 <= j < |top| => top[j].upper) == Totals(rows);
    var m := Max(Totals(rows));
    forall j | 0 <= j < |rows| ensures Total(rows[j]) <= m {
      assert Totals(rows)[j] in Totals(rows);
    }
    var l :| 0 <= l < |rows| && Totals(rows)[l] == m;
  }

  /** The filtered domain maximum (`d3.max` over the filtered counts) is a counter of column `g`
      that no other counter of that column exceeds, and it never exceeds the overview's. */
  lemma ColumnMaxBelowTopMax(rows: seq<Row>, g: GenIndex)
    requires WellFormed(rows) && rows != []
    ensures forall j :: 0 <= j < |rows| ==> rows[j].gens[g] <= Max(Column(rows, g))
    ensures exists j :: 0 <= j < |rows| && rows[j].gens[g] == Max(Column(rows, g))
    ensures Max(Column(rows, g)) <= TopMax(Stack(rows))
  {
    var col := Column(rows, g);
    forall j | 0 <= j < |rows| ensures rows[j].gens[g] <= Max(col) {
      assert col[j] in col;
    }
    var l :| 0 <= l < |rows| && col[l] == Max(col);
    SumBoundsElement(rows[l].gens, g);
    TopMaxIsLargestTotal(rows);
  }
}
