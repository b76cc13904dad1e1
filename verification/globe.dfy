/**
  The timezone variant of the globe page (src/main.js): ports from one sheet,
  grouped by timezone into synthetic regional offices, plus the tooltip and
  navigation state of the page. Coordinates, the renderer and the DOM tree
  are outside the model; DOM elements are opaque handles.
 */
module Globe {
  import opened Options
  import opened Text
  import opened Labels
  import Navigation

  /** One row of the ports sheet (its coordinates are not modelled). */
  datatype PortRow = PortRow(name: string, city: string, country: string, province: string, timezone: string)

  /** A port marker record (`type: "port"`). */
  datatype Port = Port(id: string, name: string, city: string, country: string, province: string, timezone: string)

  /** A synthetic regional office for one timezone (`type: "office"`). */
  datatype Office = Office(id: string, name: string, timezone: string, description: string, managedPorts: string)

  /** An entry of `combinedData`: the records the globe draws markers for. */
  datatype Marker = OfficeMarker(office: Office) | PortMarker(port: Port) {

    function Id(): string {
      match this
      case OfficeMarker(o) => o.id
      case PortMarker(p) => p.id
    }
  }

  function Ids(markers: seq<Marker>): (ids: seq<string>)
    ensures |ids| == |markers|
    ensures forall i :: 0 <= i < |markers| ==> ids[i] == markers[i].Id()
  {
    seq(|markers|, i requires 0 <= i < |markers| => markers[i].Id())
  }

  // ---------------------------------------------------------------------------
  // Data processing
  // ---------------------------------------------------------------------------

  function ProcessPortData(row: PortRow, index: nat): Port {
    Port(PortId(index), row.name, row.city, row.country, row.province, row.timezone)
  }

  /** `ports.map(processPortData)`: the i-th row becomes port `port-i`. */
  function ProcessPorts(rows: seq<PortRow>): (ports: seq<Port>)
    ensures |ports| == |rows|
    ensures forall i :: 0 <= i < |rows| ==>
              ports[i].id == PortId(i) && ports[i].name == rows[i].name &&
              ports[i].city == rows[i].city && ports[i].country == rows[i].country &&
              ports[i].province == rows[i].province && ports[i].timezone == rows[i].timezone
  {
    seq(|rows|, i requires 0 <= i < |rows| => ProcessPortData(rows[i], i))
  }

  function Names(rows: seq<PortRow>): (names: seq<string>)
    ensures |names| == |rows|
    ensures forall i :: 0 <= i < |rows| ==> names[i] == rows[i].name
  {
    seq(|rows|, i requires 0 <= i < |rows| => rows[i].name)
  }

  /** The office built for one timezone group (`processOfficeData`). */
  function ProcessOfficeData(timezone: string, index: nat, portsInTimezone: seq<PortRow>): Office {
    Office(
      OfficeId(index),
      OfficeName(timezone),
      timezone,
      OfficeDescription(|portsInTimezone|, timezone),
      Join(Names(portsInTimezone), ", "))
  }

  // ---------------------------------------------------------------------------
  // Grouping by timezone
  // ---------------------------------------------------------------------------

  /** One entry of the object `groupPortsByTimezone` builds: a key and its array. */
  datatype Group = Group(timezone: string, ports: seq<PortRow>)

  /** The keys of the groups object, in insertion order. */
  function Keys(groups: seq<Group>): (keys: seq<string>)
    ensures |keys| == |groups|
    ensures forall i :: 0 <= i < |groups| ==> keys[i] == groups[i].timezone
  {
    seq(|groups|, i requires 0 <= i < |groups| => groups[i].timezone)
  }

  /** One step of the `reduce`: push onto the existing array, or create it first. */
  function AddToGroups(groups: seq<Group>, port: PortRow): seq<Group> {
    var k := Navigation.FindIndex(Keys(groups), port.timezone);
    if k == -1 then groups + [Group(port.timezone, [port])]
    else groups[k := Group(groups[k].timezone, groups[k].ports + [port])]
  }

  /** `groupPortsByTimezone`: a left fold of `AddToGroups` over the rows. */
  function GroupPortsByTimezone(ports: seq<PortRow>): seq<Group>
    decreases |ports|
  {
    if |ports| == 0 then []
    else AddToGroups(GroupPortsByTimezone(ports[..|ports| - 1]), ports[|ports| - 1])
  }

  // Reference definitions the grouping is proved against.

  function TimezonesOf(ports: seq<PortRow>): (tzs: seq<string>)
    ensures |tzs| == |ports|
    ensures forall i :: 0 <= i < |ports| ==> tzs[i] == ports[i].timezone
  {
    seq(|ports|, i requires 0 <= i < |ports| => ports[i].timezone)
  }

  /** The distinct elements of `xs`, in order of first appearance. */
  function DistinctInOrder(xs: seq<string>): seq<string>
    decreases |xs|
  {
    if |xs| == 0 then []
    else
      var seen := DistinctInOrder(xs[..|xs| - 1]);
      if xs[|xs| - 1] in seen then seen else seen + [xs[|xs| - 1]]
  }

  /** The rows whose timezone is `tz`, in input order. */
  function PortsIn(ports: seq<PortRow>, tz: string): seq<PortRow>
    decreases |ports|
  {
    if |ports| == 0 then []
    else
      var before := PortsIn(ports[..|ports| - 1], tz);
      if ports[|ports| - 1].timezone == tz then before + [ports[|ports| - 1]] else before
  }

  lemma {:induction false} DistinctInOrderIsDedup(xs: seq<string>)
    ensures Navigation.Distinct(DistinctInOrder(xs))
    ensures forall x :: x in DistinctInOrder(xs) <==> x in xs
    decreases |xs|
  {
    if |xs| > 0 {
      DistinctInOrderIsDedup(xs[..|xs| - 1]);
      assert xs == xs[..|xs| - 1] + [xs[|xs| - 1]];
    }
  }

  lemma {:induction false} PortsInMembers(ports: seq<PortRow>, tz: string)
    ensures forall q :: q in PortsIn(ports, tz) <==> q in ports && q.timezone == tz
    decreases |ports|
  {
    if |ports| > 0 {
      PortsInMembers(ports[..|ports| - 1], tz);
      assert ports == ports[..|ports| - 1] + [ports[|ports| - 1]];
    }
  }

  lemma PortsInEmptyWhenAbsent(ports: seq<PortRow>, tz: string)
    requires tz !in TimezonesOf(ports)
    ensures PortsIn(ports, tz) == []
  {
    PortsInMembers(ports, tz);
  }

  /**
    The grouping keeps one group per distinct timezone, in order of first
    appearance, and each group holds exactly the rows of its timezone in
    input order.
   */
  lemma {:induction false} GroupsAreFilters(ports: seq<PortRow>)
    ensures Keys(GroupPortsByTimezone(ports)) == DistinctInOrder(TimezonesOf(ports))
    ensures forall i :: 0 <= i < |GroupPortsByTimezone(ports)| ==>
              GroupPortsByTimezone(ports)[i].ports ==
              PortsIn(ports, GroupPortsByTimezone(ports)[i].timezone)
    decreases |ports|
  {
    if |ports| > 0 {
      var init := ports[..|ports| - 1];
      var p := ports[|ports| - 1];
      var groups := GroupPortsByTimezone(init);
      var result := GroupPortsByTimezone(ports);
      GroupsAreFilters(init);
      assert TimezonesOf(ports)[..|ports| - 1] == TimezonesOf(init);
      var dedup := DistinctInOrder(TimezonesOf(init));
      DistinctInOrderIsDedup(TimezonesOf(init));
      assert Keys(groups) == dedup;
      var k := Navigation.FindIndex(Keys(groups), p.timezone);
      if k == -1 {
        assert p.timezone !in TimezonesOf(init);
        PortsInEmptyWhenAbsent(init, p.timezone);
        assert Keys(result) == Keys(groups) + [p.timezone];
        forall i | 0 <= i < |result|
          ensures result[i].ports == PortsIn(ports, result[i].timezone)
        {
          if i < |groups| {
            assert result[i] == groups[i];
            assert groups[i].timezone == dedup[i];
            assert dedup[i] in dedup;
          }
        }
      } else {
        assert Keys(result) == Keys(groups);
        forall i | 0 <= i < |result|
          ensures result[i].ports == PortsIn(ports, result[i].timezone)
        {
          if i != k {
            assert result[i] == groups[i];
            assert dedup[i] != dedup[k];
          }
        }
      }
    }
  }

  function SumSizes(groups: seq<Group>): nat
    decreases |groups|
  {
    if |groups| == 0 then 0 else SumSizes(groups[..|groups| - 1]) + |groups[|groups| - 1].ports|
  }

  lemma {:induction false} SumSizesAfterPush(groups: seq<Group>, k: nat, port: PortRow)
    requires k < |groups|
    ensures SumSizes(groups[k := Group(groups[k].timezone, groups[k].ports + [port])]) ==
            SumSizes(groups) + 1
    decreases |groups|
  {
    var updated := groups[k := Group(groups[k].timezone, groups[k].ports + [port])];
    var n := |groups|;
    if k < n - 1 {
      assert updated[..n - 1] == groups[..n - 1][k := Group(groups[k].timezone, groups[k].ports + [port])];
      SumSizesAfterPush(groups[..n - 1], k, port);
    } else {
      assert updated[..n - 1] == groups[..n - 1];
    }
  }

  /** The group sizes add up to the number of input rows: no row is lost or duplicated. */
  lemma {:induction false} GroupSizesSumToInput(ports: seq<PortRow>)
    ensures SumSizes(GroupPortsByTimezone(ports)) == |ports|
    decreases |ports|
  {
    if |ports| > 0 {
      var init := ports[..|ports| - 1];
      var p := ports[|ports| - 1];
      var groups := GroupPortsByTimezone(init);
      GroupSizesSumToInput(init);
      var k := Navigation.FindIndex(Keys(groups), p.timezone);
      if k == -1 {
        var result := groups + [Group(p.timezone, [p])];
        assert result[..|result| - 1] == groups;
      } else {
        SumSizesAfterPush(groups, k, p);
      }
    }
  }

  /**
    The grouping partitions its input: every row lies in the group keyed by
    its own timezone, no key appears twice, and every row of a group has
    that group's timezone.
   */
  lemma GroupingPartitions(ports: seq<PortRow>)
    ensures var groups := GroupPortsByTimezone(ports);
            && Navigation.Distinct(Keys(groups))
            && (forall j :: 0 <= j < |ports| ==>
                 exists i :: 0 <= i < |groups| && groups[i].timezone == ports[j].timezone &&
                                                  ports[j] in groups[i].ports)
            && (forall i, q :: 0 <= i < |groups| && q in groups[i].ports ==> q.timezone == groups[i].timezone)
  {
    var groups := GroupPortsByTimezone(ports);
    GroupsAreFilters(ports);
    DistinctInOrderIsDedup(TimezonesOf(ports));
    forall j | 0 <= j < |ports|
      ensures exists i :: 0 <= i < |groups| && groups[i].timezone == ports[j].timezone &&
                          ports[j] in groups[i].ports
    {
      var tz := ports[j].timezone;
      assert TimezonesOf(ports)[j] == tz;
      assert tz in Keys(groups);
      var i :| 0 <= i < |groups| && Keys(groups)[i] == tz;
      PortsInMembers(ports, tz);
    }
    forall i, q | 0 <= i < |groups| && q in groups[i].ports
      ensures q.timezone == groups[i].timezone
    {
      PortsInMembers(ports, groups[i].timezone);
    }
  }

  /**
    `processTimezoneOffices`: one office per distinct timezone in order of
    first appearance; the i-th is `office-i`, counts the rows of its
    timezone and lists their names joined by ", " in input order.
   */
  function ProcessTimezoneOffices(ports: seq<PortRow>): (offices: seq<Office>)
    ensures |offices| == |DistinctInOrder(TimezonesOf(ports))|
    ensures forall i :: 0 <= i < |offices| ==> offices[i].id == OfficeId(i)
    ensures forall i :: 0 <= i < |offices| ==>
              var tz := DistinctInOrder(TimezonesOf(ports))[i];
              var members := PortsIn(ports, tz);
              offices[i] == Office(OfficeId(i), OfficeName(tz), tz,
                                   OfficeDescription(|members|, tz), Join(Names(members), ", "))
  {
    var groups := GroupPortsByTimezone(ports);
    GroupsAreFilters(ports);
    seq(|groups|, i requires 0 <= i < |groups| =>
      ProcessOfficeData(groups[i].timezone, i, groups[i].ports))
  }

  // ---------------------------------------------------------------------------
  // Page state
  // ---------------------------------------------------------------------------

  /** An opaque DOM element handle (an icon or a tooltip). */
  type Elem = nat

  /** The global `state` object (the renderer handle is not modelled). */
  datatype State = State(
    currentTooltip: Option<Elem>,
    activeMarkerId: Option<string>,
    currentLocationIndex: int,
    portData: seq<Port>,
    officeData: seq<Office>,
    combinedData: seq<Marker>)

  /**
    The DOM facts the handlers read and write: which tooltips have
    `display: block` and which icons carry the `selected` class.
   */
  datatype Dom = Dom(visible: set<Elem>, selected: set<Elem>)

  /** Offices first, then ports (`[...officeData, ...portData]`). */
  function Combine(offices: seq<Office>, ports: seq<Port>): (combined: seq<Marker>)
    ensures |combined| == |offices| + |ports|
    ensures forall i :: 0 <= i < |offices| ==> combined[i] == OfficeMarker(offices[i])
    ensures forall j :: 0 <= j < |ports| ==> combined[|offices| + j] == PortMarker(ports[j])
  {
    seq(|offices|, i requires 0 <= i < |offices| => OfficeMarker(offices[i])) +
    seq(|ports|, j requires 0 <= j < |ports| => PortMarker(ports[j]))
  }

  datatype Fetched = Fetched(state: State, data: seq<Marker>)

  /**
    `fetchPortData` after the request: `response` is the parsed sheet, or
    `None` when the request or the JSON parsing failed, in which case the
    state is untouched and the result is empty.
   */
  function FetchPortData(s: State, response: Option<seq<PortRow>>): (r: Fetched)
    ensures response.None? ==> r == Fetched(s, [])
    ensures response.Some? ==>
              && r.state.portData == ProcessPorts(response.value)
              && r.state.officeData == ProcessTimezoneOffices(response.value)
              && r.state.combinedData == Combine(r.state.officeData, r.state.portData)
              && r.data == r.state.combinedData
              && r.state.currentTooltip == s.currentTooltip
              && r.state.activeMarkerId == s.activeMarkerId
              && r.state.currentLocationIndex == s.currentLocationIndex
  {
    match response
    case None => Fetched(s, [])
    case Some(rows) =>
      var ports := ProcessPorts(rows);
      var offices := ProcessTimezoneOffices(rows);
      var combined := Combine(offices, ports);
      Fetched(s.(portData := ports, officeData := offices, combinedData := combined), combined)
  }

  /** Offices numbered `office-i` followed by ports numbered `port-j` carry the numbered ids. */
  lemma CombinedIdsAreNumbered(offices: seq<Office>, ports: seq<Port>)
    requires forall i :: 0 <= i < |offices| ==> offices[i].id == OfficeId(i)
    requires forall j :: 0 <= j < |ports| ==> ports[j].id == PortId(j)
    ensures forall k :: 0 <= k < |offices| + |ports| ==>
              Ids(Combine(offices, ports))[k] == NumberedId(|offices|, k)
  {
    var combined := Combine(offices, ports);
    forall k | |offices| <= k < |offices| + |ports|
      ensures Ids(combined)[k] == NumberedId(|offices|, k)
    {
      assert combined[|offices| + (k - |offices|)] == PortMarker(ports[k - |offices|]);
    }
  }

  /** Every marker id in the loaded data is unique, so `findIndex` by id is exact. */
  lemma LoadedIdsAreDistinct(s: State, rows: seq<PortRow>)
    ensures Navigation.Distinct(Ids(FetchPortData(s, Some(rows)).state.combinedData))
  {
    var offices := ProcessTimezoneOffices(rows);
    var ports := ProcessPorts(rows);
    CombinedIdsAreNumbered(offices, ports);
    NumberedIdsAreDistinct(Ids(Combine(offices, ports)), |offices|);
  }

  // ---------------------------------------------------------------------------
  // Tooltip toggling and navigation
  // ---------------------------------------------------------------------------

  datatype Ui = Ui(state: State, dom: Dom)

  datatype Toggled = Toggled(shown: bool, ui: Ui)

  /** The icon of the active marker, found by the `#id .icon` query modelled as the `icons` map. */
  function PreviousIcon(s: State, icons: map<string, Elem>): Option<Elem> {
    if s.activeMarkerId.Some? && s.activeMarkerId.value in icons then Some(icons[s.activeMarkerId.value]) else None
  }

  /**
    Hides the tooltip that is currently open and unselects the icon of the
    active marker, looked up by id in `icons` (the `#id .icon` query).
   */
  function HidePrevious(s: State, dom: Dom, icons: map<string, Elem>): Dom
    requires s.currentTooltip.Some?
  {
    var selected :=
      if PreviousIcon(s, icons).Some? then dom.selected - {PreviousIcon(s, icons).value} else dom.selected;
    Dom(dom.visible - {s.currentTooltip.value}, selected)
  }

  /**
    `toggleTooltip`: with a missing icon, tooltip or record nothing happens
    and the result is false. Otherwise the new visibility is `shouldShow`
    when given and the opposite of the tooltip's current visibility when
    not; the tooltip and icon follow it, and the state remembers the
    tooltip and the record's id exactly when it is shown. A different
    tooltip that was open is hidden first.
   */
  function ToggleTooltip(ui: Ui, icons: map<string, Elem>, iconEl: Option<Elem>,
                         tooltipEl: Option<Elem>, data: Option<Marker>,
                         shouldShow: Option<bool>): (r: Toggled)
    ensures iconEl.None? || tooltipEl.None? || data.None? ==> r == Toggled(false, ui)
    ensures iconEl.Some? && tooltipEl.Some? && data.Some? ==>
              var tooltip := tooltipEl.value;
              var s' := r.ui.state;
              && r.shown == shouldShow.GetOr(tooltip !in ui.dom.visible)
              && (tooltip in r.ui.dom.visible <==> r.shown)
              && (iconEl.value in r.ui.dom.selected <==> r.shown)
              && s'.currentTooltip == (if r.shown then Some(tooltip) else None)
              && s'.activeMarkerId == (if r.shown then Some(data.value.Id()) else None)
              && (ui.state.currentTooltip.Some? && ui.state.currentTooltip.value != tooltip ==>
                    ui.state.currentTooltip.value !in r.ui.dom.visible)
              && (forall e :: e != tooltip && Some(e) != ui.state.currentTooltip ==>
                    (e in r.ui.dom.visible <==> e in ui.dom.visible))
              && (&& ui.state.currentTooltip.Some? && ui.state.currentTooltip.value != tooltip
                  && PreviousIcon(ui.state, icons).Some? && PreviousIcon(ui.state, icons).value != iconEl.value ==>
                    PreviousIcon(ui.state, icons).value !in r.ui.dom.selected)
              && (forall e :: (&& e != iconEl.value
                               && !(&& ui.state.currentTooltip.Some? && ui.state.currentTooltip.value != tooltip
                                    && Some(e) == PreviousIcon(ui.state, icons))) ==>
                    (e in r.ui.dom.selected <==> e in ui.dom.selected))
              && s'.currentLocationIndex == ui.state.currentLocationIndex
              && s'.combinedData == ui.state.combinedData
              && s'.officeData == ui.state.officeData
              && s'.portData == ui.state.portData
  {
    if iconEl.None? || tooltipEl.None? || data.None? then Toggled(false, ui)
    else
      var s := ui.state;
      var tooltip := tooltipEl.value;
      var icon := iconEl.value;
      var cleared :=
        if s.currentTooltip.Some? && s.currentTooltip.value != tooltip
        then HidePrevious(s, ui.dom, icons)
        else ui.dom;
      var isVisible := tooltip in cleared.visible;
      var newState := if shouldShow.Some? then shouldShow.value else !isVisible;
      var visible := if newState then cleared.visible + {tooltip} else cleared.visible - {tooltip};
      var selected := if newState then cleared.selected + {icon} else cleared.selected - {icon};
      var s' := s.(currentTooltip := if newState then Some(tooltip) else None,
                   activeMarkerId := if newState then Some(data.value.Id()) else None);
      Toggled(newState, Ui(s', Dom(visible, selected)))
  }

  /**
    At most one tooltip is open, it is the one the state remembers, and a
    marker is active exactly when a tooltip is open.
   */
  predicate OneTooltipOpen(ui: Ui) {
    && ui.dom.visible == (if ui.state.currentTooltip.Some? then {ui.state.currentTooltip.value} else {})
    && (ui.state.activeMarkerId.Some? <==> ui.state.currentTooltip.Some?)
  }

  lemma ToggleKeepsOneTooltipOpen(ui: Ui, icons: map<string, Elem>, iconEl: Option<Elem>,
                                  tooltipEl: Option<Elem>, data: Option<Marker>,
                                  shouldShow: Option<bool>)
    requires OneTooltipOpen(ui)
    ensures OneTooltipOpen(ToggleTooltip(ui, icons, iconEl, tooltipEl, data, shouldShow).ui)
  {
  }

  /**
    The index bookkeeping of `navigateToLocation`: the stored index is the
    requested one wrapped into range; the camera move and the delayed
    tooltip are not modelled.
   */
  function NavigateToLocation(s: State, index: int): (r: State)
    ensures |s.combinedData| > 0 ==> 0 <= r.currentLocationIndex < |s.combinedData|
    ensures 0 <= index < |s.combinedData| ==> r.currentLocationIndex == index
    ensures |s.combinedData| > 0 && index < 0 ==> r.currentLocationIndex == |s.combinedData| - 1
    ensures index >= |s.combinedData| ==> r.currentLocationIndex == 0
    ensures |s.combinedData| == 0 ==> r.currentLocationIndex == (if index < 0 then -1 else 0)
    ensures r == s.(currentLocationIndex := r.currentLocationIndex)
  {
    s.(currentLocationIndex := Navigation.WrapIndex(index, |s.combinedData|))
  }

  /** The "Previous" and "Next" buttons. */
  function Previous(s: State): State {
    NavigateToLocation(s, s.currentLocationIndex - 1)
  }

  function Next(s: State): State {
    NavigateToLocation(s, s.currentLocationIndex + 1)
  }

  /** From a valid index the buttons cycle through the data and undo each other. */
  lemma ButtonsCycle(s: State)
    requires 0 <= s.currentLocationIndex < |s.combinedData|
    ensures Next(s).currentLocationIndex == (s.currentLocationIndex + 1) % |s.combinedData|
    ensures Previous(s).currentLocationIndex == (s.currentLocationIndex - 1) % |s.combinedData|
    ensures Previous(Next(s)) == s
    ensures Next(Previous(s)) == s
  {
    var i := s.currentLocationIndex;
    var n := |s.combinedData|;
    Navigation.NextIsSuccessorModulo(i, n);
    Navigation.PreviousIsPredecessorModulo(i, n);
    Navigation.PreviousUndoesNext(i, n);
    Navigation.NextUndoesPrevious(i, n);
  }

  /**
    `handleMarkerClick`: toggle the clicked marker's tooltip, then move to
    the marker's position in `combinedData` without the delayed tooltip. The
    position is the first record with the clicked id; when there is none,
    the `-1` of `findIndex` wraps to the last entry.
   */
  function HandleMarkerClick(ui: Ui, icons: map<string, Elem>, d: Option<Marker>,
                             markerEl: Option<Elem>, tooltipEl: Option<Elem>): (r: Ui)
    ensures d.None? || markerEl.None? || tooltipEl.None? ==> r == ui
    ensures d.Some? && markerEl.Some? && tooltipEl.Some? ==>
              var toggled := ToggleTooltip(ui, icons, markerEl, tooltipEl, d, None).ui;
              var data := ui.state.combinedData;
              var i := r.state.currentLocationIndex;
              && r == Ui(toggled.state.(currentLocationIndex := i), toggled.dom)
              && (d.value.Id() in Ids(data) ==>
                    && 0 <= i < |data| && data[i].Id() == d.value.Id()
                    && forall j :: 0 <= j < i ==> data[j].Id() != d.value.Id())
              && (d.value.Id() !in Ids(data) ==> i == |data| - 1)
  {
    if d.None? || markerEl.None? || tooltipEl.None? then ui
    else
      var toggled := ToggleTooltip(ui, icons, markerEl, tooltipEl, d, None);
      var index := Navigation.FindIndex(Ids(toggled.ui.state.combinedData), d.value.Id());
      Ui(NavigateToLocation(toggled.ui.state, index), toggled.ui.dom)
  }

  /**
    A click on the k-th marker of loaded data selects index k. A click on a
    record whose id is not in the data selects the last entry, because the
    `-1` of `findIndex` wraps around.
   */
  lemma ClickSelectsClickedMarker(ui: Ui, icons: map<string, Elem>, d: Marker,
                                  markerEl: Elem, tooltipEl: Elem)
    requires Navigation.Distinct(Ids(ui.state.combinedData))
    ensures var r := HandleMarkerClick(ui, icons, Some(d), Some(markerEl), Some(tooltipEl));
            && (forall k :: 0 <= k < |ui.state.combinedData| && ui.state.combinedData[k] == d ==>
                  r.state.currentLocationIndex == k)
            && (d.Id() !in Ids(ui.state.combinedData) && |ui.state.combinedData| > 0 ==>
                  r.state.currentLocationIndex == |ui.state.combinedData| - 1)
            && (OneTooltipOpen(ui) ==> OneTooltipOpen(r))
  {
    var ids := Ids(ui.state.combinedData);
    forall k | 0 <= k < |ui.state.combinedData| && ui.state.combinedData[k] == d
      ensures HandleMarkerClick(ui, icons, Some(d), Some(markerEl), Some(tooltipEl)).state.currentLocationIndex == k
    {
      Navigation.FindIndexOfDistinct(ids, k);
    }
  }
}
