/** A worked scenario: three records, two body types, generations '1' and '2'. */
module Scenarios {
  import opened Records
  import opened Counting
  import opened Aggregation
  import opened BarView

  /** Body type A with one record of generation '1' and one of '2'; body type B with one of '1'. */
  const Sample: seq<Record> := [Record("a", "A", "1", "Red", 1, 1, 1), Record("b", "A", "2", "Red", 1, 1, 1), Record("c", "B", "1", "Blue", 1, 1, 1)]

  /** The groups come in first-seen order, each with its records in table order. */
  lemma SampleNest()
    ensures Nest(Sample) == [Group("A", Sample[..2]), Group("B", Sample[2..])]
  {
    var rs := Sample;
    assert BodyStyles(rs) == ["A", "A", "B"];
    assert BodyStyles(rs)[..2] == ["A", "A"];
    assert BodyStyles(rs)[..1] == ["A"];
    assert Distinct(["A"]) == ["A"];
    assert Distinct(["A", "A"]) == ["A"];
    assert Distinct(BodyStyles(rs)) == ["A", "B"];
    assert rs[1..][1..][1..] == [];
    assert WithBodyStyle(rs, "A") == rs[..2];
    assert WithBodyStyle(rs, "B") == rs[2..];
  }

  /** Group A counts one record of generation '1' and one of '2'. */
  lemma SampleRowA()
    ensures ToRow(Group("A", Sample[..2])) == Row("A", [1, 1, 0, 0, 0, 0])
  {
    var ga := Sample[..2];
    assert ga[1..] == [Sample[1]];
    assert WithGeneration([Sample[1]], "1") == [];
    assert WithGeneration(ga, "1") == [Sample[0]];
    assert WithGeneration([Sample[1]], "2") == [Sample[1]];
    assert WithGeneration(ga, "2") == [Sample[1]];
    forall k | 2 <= k < 6 ensures WithGeneration(ga, GenTags[k]) == [] {
      assert WithGeneration([Sample[1]], GenTags[k]) == [];
    }
  }

  /** Group B counts one record of generation '1'. */
  lemma SampleRowB()
    ensures ToRow(Group("B", Sample[2..])) == Row("B", [1, 0, 0, 0, 0, 0])
  {
    var gb := Sample[2..];
    assert gb == [Sample[2]] && gb[1..] == [];
    assert WithGeneration(gb, "1") == [Sample[2]];
    forall k | 1 <= k < 6 ensures WithGeneration(gb, GenTags[k]) == [] {
      assert Sample[2].generation != GenTags[k];
    }
  }

  /** The rows count generation '1' and '2' per body type and zero elsewhere. */
  lemma SampleRows()
    ensures Rows(Sample) == [Row("A", [1, 1, 0, 0, 0, 0]), Row("B", [1, 0, 0, 0, 0, 0])]
  {
    SampleNest();
    SampleRowA();
    SampleRowB();
  }

  /** Over those rows the overview's domain maximum is the larger total, 2, and the session of a
      click on the first segment has the bars A:1, B:1 with maximum 1. */
  lemma SampleSessions(rows: seq<Row>)
    requires rows == [Row("A", [1, 1, 0, 0, 0, 0]), Row("B", [1, 0, 0, 0, 0, 0])]
    ensures WellFormed(rows)
    ensures InitialSession(rows).domainMax == 2
    ensures Clicked(rows, Stack(rows)[0][0]).bars == GenerationBars([GenBar("A", 1, 0), GenBar("B", 1, 0)])
    ensures Clicked(rows, Stack(rows)[0][0]).domainMax == 1
  {
    assert Sum(rows[0].gens) == 2 && Sum(rows[1].gens) == 1;
    assert Totals(rows) == [2, 1];
    TopMaxIsLargestTotal(rows);
    assert Column(rows, 0) == [1, 1];
  }

  /** From the sample's setup, clicking the first segment (column gen1, body type A) is a step
      to `Filtered(0)` whose bars are A:1 and B:1 with maximum 1; the overview's maximum is 2. */
  lemma SampleView()
    ensures WellFormed(Rows(Sample)) && Rows(Sample) != []
    ensures InitialSession(Rows(Sample)).domainMax == 2
    ensures var rows := Rows(Sample);
      var f := Step(rows, InitialSession(rows), SegmentClick(Stack(rows)[0][0]));
      && f.Some?
      && InState(rows, Filtered(0), f.value)
      && f.value.bars == GenerationBars([GenBar("A", 1, 0), GenBar("B", 1, 0)])
      && f.value.domainMax == 1
  {
    SampleRows();
    var rows := Rows(Sample);
    SampleSessions(rows);
    InitialIsOverview(rows);
    OverviewTransitions(rows, InitialSession(rows), 0, 0);
  }
}
