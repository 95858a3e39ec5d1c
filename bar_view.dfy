/** The drill-down bar view as a two-state machine. Its session is the vertical domain, the
    bound bar set, the legend and back-control visibility and the subtitle; clicking a
    stacked segment (`updateBar`) and clicking the back control (`resetView`) are the only
    transitions. */
module BarView {
  import opened Records
  import opened Counting
  import opened Aggregation

  datatype ViewState = Overview | Filtered(gen: GenIndex)

  /** One bar of the filtered view (`newData`): its colour is the colour of column `key`. */
  datatype GenBar = GenBar(bodyType: string, count: nat, key: GenIndex)

  /** The data bound to the view's `.bar` elements. */
  datatype BarSet = StackedBars(layers: seq<seq<Segment>>) | GenerationBars(bars: seq<GenBar>)

  /** The session fields. The domain is always `[0, domainMax]`; `domainNiced` records whether
      `.nice()` was applied to it after it was last set. */
  datatype Session = Session(
    domainMax: nat,
    domainNiced: bool,
    bars: BarSet,
    legendVisible: bool,
    backVisible: bool,
    subtitle: string)

  datatype Event = SegmentClick(seg: Segment) | BackClick

  const InitialSubtitle := "Hover or click the bar for more information."
  const ResetSubtitle := "Hover or click the bar for more information"

  /** The filtered subtitle: "Generation " followed by the clicked key with its `gen` prefix removed. */
  function GenerationSubtitle(g: GenIndex): string {
    "Generation " + GenTags[g]
  }

  /** `newData`: one bar per row, in row order, counting column `g`. */
  function FilterBars(rows: seq<Row>, g: GenIndex): (bars: seq<GenBar>)
    requires WellFormed(rows)
    ensures |bars| == |rows|
    ensures forall j :: 0 <= j < |rows| ==> bars[j].count <= Total(rows[j])
  {
    assert forall j :: 0 <= j < |rows| ==> rows[j].gens[g] <= Total(rows[j]) by {
      forall j | 0 <= j < |rows| ensures rows[j].gens[g] <= Total(rows[j]) {
        SumBoundsElement(rows[j].gens, g);
      }
    }
    seq(|rows|, j requires 0 <= j < |rows| => GenBar(rows[j].bodyType, rows[j].gens[g], g))
  }

  /** Only stacked segments carry a click handler; the bars of the filtered view have hover
      handlers only. A segment whose counter is 0 is drawn with no height and so offers
      nothing to click. */
  predicate Clickable(bars: BarSet, seg: Segment) {
    bars.StackedBars? && seg.lower < seg.upper && exists layer :: layer in bars.layers && seg in layer
  }

  /** The session right after setup: the stacked bars, the niced stacked maximum, the legend
      shown, the back control hidden. */
  function InitialSession(rows: seq<Row>): (s: Session)
    requires WellFormed(rows) && rows != []
    ensures s.domainNiced && s.legendVisible && !s.backVisible
    ensures forall j :: 0 <= j < |rows| ==> Total(rows[j]) <= s.domainMax
  {
    TopMaxIsLargestTotal(rows);
    var stacked := Stack(rows);
    Session(TopMax(stacked), true, StackedBars(stacked), true, false, InitialSubtitle)
  }

  /** The session `updateBar` leaves for a click on a segment of column `seg.key`. */
  function Clicked(rows: seq<Row>, seg: Segment): (s: Session)
    requires WellFormed(rows) && rows != []
    ensures !s.legendVisible && s.backVisible && s.bars.GenerationBars? && |s.bars.bars| == |rows|
    ensures forall j :: 0 <= j < |rows| ==> s.bars.bars[j].count <= s.domainMax
  {
    ColumnMaxBelowTopMax(rows, seg.key);
    Session(Max(Column(rows, seg.key)), false, GenerationBars(FilterBars(rows, seg.key)),
            false, true, GenerationSubtitle(seg.key))
  }

  /** The session `resetView` leaves. */
  function BackClicked(rows: seq<Row>): (s: Session)
    requires WellFormed(rows) && rows != []
    ensures s.legendVisible && !s.backVisible && s.bars.StackedBars?
    ensures forall j :: 0 <= j < |rows| ==> Total(rows[j]) <= s.domainMax
  {
    TopMaxIsLargestTotal(rows);
    var stacked := Stack(rows);
    Session(TopMax(stacked), false, StackedBars(stacked), true, false, ResetSubtitle)
  }

  /** One user event: a click reaches a handler only on a clickable segment or on the
      back control while it is displayed; any other click changes nothing (`None`). */
  function Step(rows: seq<Row>, s: Session, e: Event): (r: Option<Session>)
    requires WellFormed(rows) && rows != []
    ensures r.Some? ==> r.value.backVisible == e.SegmentClick? && r.value.legendVisible != r.value.backVisible
    ensures r.Some? && e.SegmentClick? ==> s.bars.StackedBars? && r.value.bars.GenerationBars?
    ensures r.Some? && e.BackClick? ==> s.backVisible && r.value.bars.StackedBars?
  {
    match e
    case SegmentClick(seg) => if Clickable(s.bars, seg) then Some(Clicked(rows, seg)) else None
    case BackClick => if s.backVisible then Some(BackClicked(rows)) else None
  }

  /** What each state shows. */
  ghost predicate InState(rows: seq<Row>, st: ViewState, s: Session)
    requires WellFormed(rows) && rows != []
  {
    match st
    case Overview =>
      && s.domainMax == TopMax(Stack(rows))
      && s.bars == StackedBars(Stack(rows))
      && s.legendVisible && !s.backVisible
      && (s.subtitle == InitialSubtitle || s.subtitle == ResetSubtitle)
    case Filtered(g) =>
      && s.domainMax == Max(Column(rows, g)) && !s.domainNiced
      && s.bars == GenerationBars(FilterBars(rows, g))
      && !s.legendVisible && s.backVisible
      && s.subtitle == GenerationSubtitle(g)
  }

  /** Setup starts in the overview. */
  lemma InitialIsOverview(rows: seq<Row>)
    requires WellFormed(rows) && rows != []
    ensures InState(rows, Overview, InitialSession(rows))
    ensures InitialSession(rows).domainNiced
  {
  }

  /** In the overview a stacked segment leads to `Filtered` of its column exactly when its
      counter is positive (otherwise it has no height to click), and the back control leads
      nowhere. */
  lemma OverviewTransitions(rows: seq<Row>, s: Session, i: nat, j: nat)
    requires WellFormed(rows) && rows != [] && InState(rows, Overview, s)
    requires i < 6 && j < |rows|
    ensures rows[j].gens[i] > 0 ==>
      Step(rows, s, SegmentClick(Stack(rows)[i][j])) == Some(Clicked(rows, Stack(rows)[i][j]))
    ensures rows[j].gens[i] == 0 ==> Step(rows, s, SegmentClick(Stack(rows)[i][j])) == None
    ensures InState(rows, Filtered(i), Clicked(rows, Stack(rows)[i][j]))
    ensures Step(rows, s, BackClick) == None
  {
    var layers := Stack(rows);
    assert layers[i] in layers && layers[i][j] in layers[i];
    StackTiles(rows, i, j);
  }

  /** In `Filtered(g)` no bar can be clicked, so `Filtered(g) -> Filtered(g')` is not a
      transition; only the back control leads out, and it leads to the overview. */
  lemma FilteredTransitions(rows: seq<Row>, g: GenIndex, s: Session, seg: Segment)
    requires WellFormed(rows) && rows != [] && InState(rows, Filtered(g), s)
    ensures Step(rows, s, SegmentClick(seg)) == None
    ensures Step(rows, s, BackClick) == Some(BackClicked(rows))
    ensures InState(rows, Overview, BackClicked(rows))
  {
  }

  /** The filtered view (`updateBar`): one bar per body type in row order, each as tall as the
      clicked column's segment of that body type. */
  lemma FilteredView(rows: seq<Row>, seg: Segment)
    requires WellFormed(rows) && rows != []
    ensures var bars := Clicked(rows, seg).bars.bars;
      && |bars| == |rows|
      && forall j :: 0 <= j < |rows| ==>
            && bars[j].bodyType == rows[j].bodyType
            && bars[j].key == seg.key
            && bars[j].count == Stack(rows)[seg.key][j].upper - Stack(rows)[seg.key][j].lower
  {
    var layer := Stack(rows)[seg.key];
    assert Clicked(rows, seg).bars.bars == FilterBars(rows, seg.key);
    forall j | 0 <= j < |rows|
      ensures layer[j].upper - layer[j].lower == rows[j].gens[seg.key]
    {
      StackTiles(rows, seg.key, j);
    }
  }

  /** The filtered domain maximum is reached by one of the bars and exceeded by none, it is at
      most the stacked maximum, and the subtitle names the clicked column's tag. */
  lemma FilteredDomain(rows: seq<Row>, seg: Segment)
    requires WellFormed(rows) && rows != []
    ensures var c := Clicked(rows, seg);
      && (forall j :: 0 <= j < |rows| ==> c.bars.bars[j].count <= c.domainMax)
      && (exists j :: 0 <= j < |rows| && c.bars.bars[j].count == c.domainMax)
    ensures Clicked(rows, seg).domainMax <= BackClicked(rows).domainMax
    ensures Clicked(rows, seg).subtitle == "Generation " + GenKeys[seg.key][3..]
  {
    var c := Clicked(rows, seg);
    assert c.bars.bars == FilterBars(rows, seg.key) && c.domainMax == Max(Column(rows, seg.key));
    ColumnMaxBelowTopMax(rows, seg.key);
    var l :| 0 <= l < |rows| && rows[l].gens[seg.key] == Max(Column(rows, seg.key));
    assert c.bars.bars[l].count == c.domainMax;
  }

  /** `Overview -> Filtered(g) -> Overview` restores the domain maximum, the bar set and both
      visibilities. A filtered view reached by a click never has the empty domain `[0, 0]`:
      the clicked segment's counter is at least 1. */
  lemma RoundTrip(rows: seq<Row>, s: Session, seg: Segment)
    requires WellFormed(rows) && rows != [] && InState(rows, Overview, s)
    requires Clickable(s.bars, seg)
    ensures Step(rows, s, SegmentClick(seg)).Some?
    ensures var f := Step(rows, s, SegmentClick(seg)).value;
      && InState(rows, Filtered(seg.key), f)
      && Step(rows, f, BackClick).Some?
      && var back := Step(rows, f, BackClick).value;
         && InState(rows, Overview, back)
         && back.domainMax == s.domainMax
         && back.bars == s.bars
         && back.legendVisible == s.legendVisible
         && back.backVisible == s.backVisible
    ensures Step(rows, s, SegmentClick(seg)).value.domainMax >= 1
  {
    var layer :| layer in s.bars.layers && seg in layer;
    var i :| 0 <= i < 6 && Stack(rows)[i] == layer;
    var j :| 0 <= j < |rows| && layer[j] == seg;
    OverviewTransitions(rows, s, i, j);
    ColumnMaxBelowTopMax(rows, seg.key);
  }

  /** From the session right after setup the round trip does not restore everything: the
      subtitle comes back without its final period and the domain comes back without
      `.nice()`. */
  lemma RoundTripFromSetup(rows: seq<Row>, seg: Segment)
    requires WellFormed(rows) && rows != []
    requires Clickable(InitialSession(rows).bars, seg)
    ensures var f := Step(rows, InitialSession(rows), SegmentClick(seg));
      && f.Some? && Step(rows, f.value, BackClick).Some?
      && var back := Step(rows, f.value, BackClick).value;
         && back.subtitle != InitialSession(rows).subtitle
         && back.subtitle + "." == InitialSession(rows).subtitle
         && !back.domainNiced && InitialSession(rows).domainNiced
  {
    InitialIsOverview(rows);
    RoundTrip(rows, InitialSession(rows), seg);
    assert ResetSubtitle + "." == InitialSubtitle;
    assert |ResetSubtitle| != |InitialSubtitle|;
  }

  /** The bar view of one page: its data is fixed at setup, its session changes with clicks.
      `state` is the drill-down state the session fields express. */
  class BarChart {
    const rows: seq<Row>
    var domainMax: nat
    var domainNiced: bool
    var bars: BarSet
    var legendVisible: bool
    var backVisible: bool
    var subtitle: string
    ghost var state: ViewState

    function Snapshot(): Session
      reads this
    {
      Session(domainMax, domainNiced, bars, legendVisible, backVisible, subtitle)
    }

    ghost predicate Valid()
      reads this
    {
      WellFormed(rows) && rows != [] && InState(rows, state, Snapshot())
    }

    /** Setup from a non-empty table; an empty one fails at the stacking keys before the
        view exists. */
    constructor (rs: seq<Record>)
      requires rs != []
      ensures Valid() && state == Overview
      ensures rows == Rows(rs) && Snapshot() == InitialSession(rows)
    {
      RowsCount(rs);
      var data := Rows(rs);
      var stacked := Stack(data);
      rows := data;
      domainMax := TopMax(stacked);
      domainNiced := true;
      bars := StackedBars(stacked);
      subtitle := InitialSubtitle;
      legendVisible := true;
      backVisible := false;
      state := Overview;
    }

    /** `updateBar(d)`, called by a click on the stacked segment `seg`. */
    method UpdateBar(seg: Segment)
      requires Valid() && Clickable(bars, seg)
      modifies this
      ensures Valid() && state == Filtered(seg.key)
      ensures Step(rows, old(Snapshot()), SegmentClick(seg)) == Some(Snapshot())
    {
      var newData := FilterBars(rows, seg.key);
      domainMax := Max(Column(rows, seg.key));
      domainNiced := false;
      bars := GenerationBars(newData);
      subtitle := GenerationSubtitle(seg.key);
      backVisible := true;
      legendVisible := false;
      state := Filtered(seg.key);
    }

    /** `resetView()`, called by a click on the back rectangle or its label. */
    method ResetView()
      requires Valid() && backVisible
      modifies this
      ensures Valid() && state == Overview
      ensures Step(rows, old(Snapshot()), BackClick) == Some(Snapshot())
    {
      var stacked := Stack(rows);
      domainMax := TopMax(stacked);
      domainNiced := false;
      bars := StackedBars(stacked);
      subtitle := ResetSubtitle;
      backVisible := false;
      legendVisible := true;
      state := Overview;
    }
  }
}
