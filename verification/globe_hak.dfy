/**
  The location variant of the globe page (src/main.hak.js): offices come
  from a locations sheet, ports from a ports sheet, and an office manages
  the ports whose `location` string equals its own. The page shows either
  every marker or the offices plus the ports of the selected office.
 */
module HakGlobe {
  import opened Options
  import opened Text
  import opened Labels
  import Navigation

  /** One row of the ports sheet (coordinates are not modelled). */
  datatype PortRow = PortRow(port: string, city: string, country: string, stateProvince: string, location: string)

  /** One row of the locations sheet (coordinates are not modelled). */
  datatype LocationRow = LocationRow(
    location: string, city: string, province: string, country: string, email: string, phone: string)

  /** A port marker record (`type: "port"`); this variant leaves `timezone` empty. */
  datatype Port = Port(id: string, name: string, city: string, country: string, province: string, timezone: string)

  /** An office marker record (`type: "office"`). */
  datatype Office = Office(
    id: string, name: string, city: string, province: string, country: string,
    description: string, managedPorts: string, email: string, phone: string, location: string)

  datatype Marker = OfficeMarker(office: Office) | PortMarker(port: Port) {

    function Id(): string {
      match this
      case OfficeMarker(o) => o.id
      case PortMarker(p) => p.id
    }
  }

  function Ids(markers: seq<Marker>): (ids: seq<string>)
    ensures |ids| == |markers|
    ensures forall i :: 0 <= i < |markers| ==> ids[i] == markers[i].Id()
  {
    seq(|markers|, i requires 0 <= i < |markers| => markers[i].Id())
  }

  function OfficeMarkers(offices: seq<Office>): (markers: seq<Marker>)
    ensures |markers| == |offices|
    ensures forall i :: 0 <= i < |offices| ==> markers[i] == OfficeMarker(offices[i])
  {
    seq(|offices|, i requires 0 <= i < |offices| => OfficeMarker(offices[i]))
  }

  function PortMarkers(ports: seq<Port>): (markers: seq<Marker>)
    ensures |markers| == |ports|
    ensures forall i :: 0 <= i < |ports| ==> markers[i] == PortMarker(ports[i])
  {
    seq(|ports|, i requires 0 <= i < |ports| => PortMarker(ports[i]))
  }

  // ---------------------------------------------------------------------------
  // Data processing
  // ---------------------------------------------------------------------------

  /** `processPortData`: the name comes from the `port` column, the province from `state_province`. */
  function ProcessPortData(row: PortRow, index: nat): Port {
    Port(PortId(index), row.port, row.city, row.country, row.stateProvince, "")
  }

  function ProcessPorts(rows: seq<PortRow>): (ports: seq<Port>)
    ensures |ports| == |rows|
    ensures forall i :: 0 <= i < |rows| ==>
              ports[i].id == PortId(i) && ports[i].name == rows[i].port &&
              ports[i].city == rows[i].city && ports[i].country == rows[i].country &&
              ports[i].province == rows[i].stateProvince && ports[i].timezone == ""
  {
    seq(|rows|, i requires 0 <= i < |rows| => ProcessPortData(rows[i], i))
  }

  /**
    `ports.filter(port => port.location === location)`: the rows kept are
    exactly the rows with that location string.
   */
  function PortsAt(ports: seq<PortRow>, location: string): (r: seq<PortRow>)
    ensures forall q :: q in r <==> q in ports && q.location == location
    ensures |r| <= |ports|
    decreases |ports|
  {
    if |ports| == 0 then []
    else (if ports[0].location == location then [ports[0]] else []) + PortsAt(ports[1..], location)
  }

  /**
    The location filter keeps input order and repeated rows: filtering a
    concatenation filters each part, the first part's rows coming first.
   */
  lemma {:induction false} PortsAtKeepsOrder(a: seq<PortRow>, b: seq<PortRow>, location: string)
    ensures PortsAt(a + b, location) == PortsAt(a, location) + PortsAt(b, location)
    decreases |a|
  {
    if |a| == 0 {
      assert a + b == b;
    } else {
      var head := if a[0].location == location then [a[0]] else [];
      assert (a + b)[0] == a[0] && (a + b)[1..] == a[1..] + b;
      assert PortsAt(a + b, location) == head + PortsAt(a[1..] + b, location);
      assert PortsAt(a, location) == head + PortsAt(a[1..], location);
      PortsAtKeepsOrder(a[1..], b, location);
    }
  }

  function PortNames(rows: seq<PortRow>): (names: seq<string>)
    ensures |names| == |rows|
    ensures forall i :: 0 <= i < |rows| ==> names[i] == rows[i].port
  {
    seq(|rows|, i requires 0 <= i < |rows| => rows[i].port)
  }

  /** `processOfficeData` for one location and the ports matched to it. */
  function ProcessOfficeData(location: LocationRow, index: nat, portsInLocation: seq<PortRow>): Office {
    Office(
      OfficeId(index),
      OfficeName(location.location),
      location.city, location.province, location.country,
      OfficeDescription(|portsInLocation|, location.location),
      Join(PortNames(portsInLocation), ", "),
      location.email, location.phone, location.location)
  }

  /**
    `locations.map(...)` in `fetchPortData`: the i-th location becomes office
    `office-i`, counting and listing the ports whose location string equals
    its own.
   */
  function ProcessOffices(ports: seq<PortRow>, locations: seq<LocationRow>): (offices: seq<Office>)
    ensures |offices| == |locations|
    ensures forall i :: 0 <= i < |locations| ==> offices[i].id == OfficeId(i)
    ensures forall i :: 0 <= i < |locations| ==>
              var matched := PortsAt(ports, locations[i].location);
              && (forall q :: q in matched <==> q in ports && q.location == locations[i].location)
              && offices[i].description == OfficeDescription(|matched|, locations[i].location)
              && offices[i].managedPorts == Join(PortNames(matched), ", ")
              && offices[i].location == locations[i].location
              && offices[i].name == OfficeName(locations[i].location)
              && offices[i].city == locations[i].city
              && offices[i].province == locations[i].province
              && offices[i].country == locations[i].country
              && offices[i].email == locations[i].email
              && offices[i].phone == locations[i].phone
  {
    seq(|locations|, i requires 0 <= i < |locations| =>
      ProcessOfficeData(locations[i], i, PortsAt(ports, locations[i].location)))
  }

  function Combine(offices: seq<Office>, ports: seq<Port>): (combined: seq<Marker>)
    ensures |combined| == |offices| + |ports|
    ensures forall i :: 0 <= i < |offices| ==> combined[i] == OfficeMarker(offices[i])
    ensures forall j :: 0 <= j < |ports| ==> combined[|offices| + j] == PortMarker(ports[j])
  {
    seq(|offices|, i requires 0 <= i < |offices| => OfficeMarker(offices[i])) +
    seq(|ports|, j requires 0 <= j < |ports| => PortMarker(ports[j]))
  }

  // ---------------------------------------------------------------------------
  // Page state
  // ---------------------------------------------------------------------------

  const OfficesMode := "offices"

  /** The global `state` object; `hasGlobe` stands for a non-null `globeInstance`. */
  datatype State = State(
    activeMarkerId: Option<string>,
    currentLocationIndex: int,
    hasGlobe: bool,
    portData: seq<Port>,
    officeData: seq<Office>,
    combinedData: seq<Marker>,
    viewMode: string)

  const InitialState := State(None, 0, false, [], [], [], OfficesMode)

  datatype Fetched = Fetched(state: State, data: seq<Marker>)

  /**
    How far `fetchPortData` gets before its `catch`. `Failed`: a request or
    a JSON parse fails, or `ports.map` throws (the ports value is not an
    array of objects), before any state is written. `LocationsRejected`: the
    ports sheet is processed and stored, then `locations.map` throws (the
    locations value is not an array of objects). `Parsed`: both sheets.
   */
  datatype Response =
    | Failed
    | LocationsRejected(ports: seq<PortRow>)
    | Parsed(ports: seq<PortRow>, locations: seq<LocationRow>)

  /**
    `fetchPortData` after both requests. Every failure yields no data; only
    a failure in `locations.map` has already replaced `portData`.
   */
  function FetchPortData(s: State, response: Response): (r: Fetched)
    ensures response.Failed? ==> r == Fetched(s, [])
    ensures response.LocationsRejected? ==>
              && r.data == []
              && r.state.portData == ProcessPorts(response.ports)
              && r.state == s.(portData := r.state.portData)
    ensures response.Parsed? ==>
              && r.state.portData == ProcessPorts(response.ports)
              && r.state.officeData == ProcessOffices(response.ports, response.locations)
              && r.state.combinedData == Combine(r.state.officeData, r.state.portData)
              && r.data == r.state.combinedData
              && r == Fetched(s.(portData := r.state.portData, officeData := r.state.officeData,
                                 combinedData := r.state.combinedData), r.data)
  {
    match response
    case Failed => Fetched(s, [])
    case LocationsRejected(ports) => Fetched(s.(portData := ProcessPorts(ports)), [])
    case Parsed(ports, locations) =>
      var portData := ProcessPorts(ports);
      var officeData := ProcessOffices(ports, locations);
      var combined := Combine(officeData, portData);
      Fetched(s.(portData := portData, officeData := officeData, combinedData := combined), combined)
  }

  /** Offices numbered `office-i` followed by ports numbered `port-j` carry the numbered ids. */
  lemma CombinedIdsAreNumbered(offices: seq<Office>, ports: seq<Port>)
    requires forall i :: 0 <= i < |offices| ==> offices[i].id == OfficeId(i)
    requires forall j :: 0 <= j < |ports| ==> ports[j].id == PortId(j)
    ensures forall k :: 0 <= k < |offices| + |ports| ==>
              Ids(Combine(offices, ports))[k] == NumberedId(|offices|, k)
  {
    var combined := Combine(offices, ports);
    forall k | |offices| <= k < |offices| + |ports|
      ensures Ids(combined)[k] == NumberedId(|offices|, k)
    {
      assert combined[|offices| + (k - |offices|)] == PortMarker(ports[k - |offices|]);
    }
  }

  /** Every marker id in the loaded data is unique, so `findIndex` by id is exact. */
  lemma LoadedIdsAreDistinct(s: State, ports: seq<PortRow>, locations: seq<LocationRow>)
    ensures Navigation.Distinct(Ids(FetchPortData(s, Parsed(ports, locations)).state.combinedData))
  {
    var offices := ProcessOffices(ports, locations);
    var portData := ProcessPorts(ports);
    CombinedIdsAreNumbered(offices, portData);
    NumberedIdsAreDistinct(Ids(Combine(offices, portData)), |offices|);
  }

  // ---------------------------------------------------------------------------
  // Navigation and marker state
  // ---------------------------------------------------------------------------

  /** The new state, and the record handed on to `setActiveLocation`, if any. */
  datatype Navigated = Navigated(state: State, target: Option<Marker>)

  /**
    `navigateToLocation`: the requested index wrapped into range selects a
    record; with no records it returns before touching the state.
   */
  function NavigateToLocation(s: State, index: int): (r: Navigated)
    ensures |s.combinedData| == 0 ==> r == Navigated(s, None)
    ensures |s.combinedData| > 0 ==>
              var i := r.state.currentLocationIndex;
              && 0 <= i < |s.combinedData|
              && (0 <= index < |s.combinedData| ==> i == index)
              && (index < 0 ==> i == |s.combinedData| - 1)
              && (index >= |s.combinedData| ==> i == 0)
              && r.target == Some(s.combinedData[i])
              && r.state == s.(currentLocationIndex := i)
  {
    var next := Navigation.WrapIndex(index, |s.combinedData|);
    if |s.combinedData| == 0 then Navigated(s, None)
    else Navigated(s.(currentLocationIndex := next), Some(s.combinedData[next]))
  }

  function Previous(s: State): Navigated {
    NavigateToLocation(s, s.currentLocationIndex - 1)
  }

  function Next(s: State): Navigated {
    NavigateToLocation(s, s.currentLocationIndex + 1)
  }

  /** From a valid index the buttons step by one modulo the length and undo each other. */
  lemma ButtonsCycle(s: State)
    requires 0 <= s.currentLocationIndex < |s.combinedData|
    ensures Next(s).state.currentLocationIndex == (s.currentLocationIndex + 1) % |s.combinedData|
    ensures Previous(s).state.currentLocationIndex == (s.currentLocationIndex - 1) % |s.combinedData|
    ensures Previous(Next(s).state).state == s
    ensures Next(Previous(s).state).state == s
  {
    var i := s.currentLocationIndex;
    var n := |s.combinedData|;
    Navigation.NextIsSuccessorModulo(i, n);
    Navigation.PreviousIsPredecessorModulo(i, n);
    Navigation.PreviousUndoesNext(i, n);
    Navigation.NextUndoesPrevious(i, n);
  }

  /**
    `handleMarkerClick`: the index becomes the first position of a record
    with the clicked id, `-1` when there is none; the clicked record is
    handed on to `setActiveLocation`.
   */
  function HandleMarkerClick(s: State, d: Option<Marker>): (r: Navigated)
    ensures d.None? ==> r == Navigated(s, None)
    ensures d.Some? ==>
              var i := r.state.currentLocationIndex;
              && r.target == d
              && r.state == s.(currentLocationIndex := i)
              && (i == -1 <==> d.value.Id() !in Ids(s.combinedData))
              && (i != -1 ==> 0 <= i < |s.combinedData| && s.combinedData[i].Id() == d.value.Id())
              && (forall j :: 0 <= j < i ==> s.combinedData[j].Id() != d.value.Id())
  {
    match d
    case None => Navigated(s, None)
    case Some(m) =>
      Navigated(s.(currentLocationIndex := Navigation.FindIndex(Ids(s.combinedData), m.Id())), d)
  }

  /** With distinct ids, clicking the k-th record selects index k. */
  lemma ClickSelectsClickedMarker(s: State, k: nat)
    requires Navigation.Distinct(Ids(s.combinedData))
    requires k < |s.combinedData|
    ensures HandleMarkerClick(s, Some(s.combinedData[k])).state.currentLocationIndex == k
  {
    Navigation.FindIndexOfDistinct(Ids(s.combinedData), k);
  }

  /** `clearMarkerState`: no marker is active afterwards; nothing else changes. */
  function ClearMarkerState(s: State): (r: State)
    ensures r.activeMarkerId.None?
    ensures r.(activeMarkerId := s.activeMarkerId) == s
  {
    s.(activeMarkerId := None)
  }

  /**
    `activateMarker`: a missing or empty id (falsy in JavaScript) changes
    nothing. Otherwise the active marker is cleared and becomes `markerId`
    only when a marker with that id is rendered (`rendered` stands for the
    `#id .icon` lookup).
   */
  function ActivateMarker(s: State, markerId: Option<string>, rendered: set<string>): (r: State)
    ensures markerId.None? || markerId == Some("") ==> r == s
    ensures markerId.Some? && markerId.value != "" ==>
              && r.activeMarkerId == (if markerId.value in rendered then markerId else None)
              && r.(activeMarkerId := s.activeMarkerId) == s
  {
    if markerId.None? || markerId.value == "" then s
    else
      var cleared := ClearMarkerState(s);
      if markerId.value in rendered then cleared.(activeMarkerId := markerId) else cleared
  }

  // ---------------------------------------------------------------------------
  // View-mode filtering
  // ---------------------------------------------------------------------------

  function OfficeIds(offices: seq<Office>): (ids: seq<string>)
    ensures |ids| == |offices|
    ensures forall i :: 0 <= i < |offices| ==> ids[i] == offices[i].id
  {
    seq(|offices|, i requires 0 <= i < |offices| => offices[i].id)
  }

  /** `officeData.find(office => office.id === id)`. */
  function FindOffice(offices: seq<Office>, id: string): (r: Option<Office>)
    ensures r.None? <==> forall i :: 0 <= i < |offices| ==> offices[i].id != id
    ensures r.Some? ==> exists i :: 0 <= i < |offices| && offices[i] == r.value &&
                                   forall j :: 0 <= j < i ==> offices[j].id != id
    ensures r.Some? ==> r.value.id == id
  {
    var k := Navigation.FindIndex(OfficeIds(offices), id);
    if k == -1 then None else Some(offices[k])
  }

  /** `portData.filter(port => managedPorts.includes(port.name))`. */
  function PortsNamedIn(ports: seq<Port>, managedPorts: string): (r: seq<Port>)
    ensures forall q :: q in r <==> q in ports && Includes(managedPorts, q.name)
    ensures |r| <= |ports|
    decreases |ports|
  {
    if |ports| == 0 then []
    else
      (if Includes(managedPorts, ports[0].name) then [ports[0]] else []) +
      PortsNamedIn(ports[1..], managedPorts)
  }

  /**
    The filter keeps input order: filtering a concatenation filters each
    part, the kept ports of the first part coming first.
   */
  lemma {:induction false} PortsNamedInKeepsOrder(a: seq<Port>, b: seq<Port>, managedPorts: string)
    ensures PortsNamedIn(a + b, managedPorts) == PortsNamedIn(a, managedPorts) + PortsNamedIn(b, managedPorts)
    decreases |a|
  {
    if |a| == 0 {
      assert a + b == b;
    } else {
      var head := if Includes(managedPorts, a[0].name) then [a[0]] else [];
      assert (a + b)[0] == a[0] && (a + b)[1..] == a[1..] + b;
      assert PortsNamedIn(a + b, managedPorts) == head + PortsNamedIn(a[1..] + b, managedPorts);
      assert PortsNamedIn(a, managedPorts) == head + PortsNamedIn(a[1..], managedPorts);
      PortsNamedInKeepsOrder(a[1..], b, managedPorts);
    }
  }

  /** The ports shown next to the offices when marker `activeId` is active. */
  function PortsOfActiveOffice(s: State): (r: seq<Port>)
    ensures s.activeMarkerId.None? || !StartsWith(s.activeMarkerId.value, OfficePrefix) ==> r == []
    ensures s.activeMarkerId.Some? && StartsWith(s.activeMarkerId.value, OfficePrefix) ==>
              match FindOffice(s.officeData, s.activeMarkerId.value)
              case None => r == []
              case Some(o) => r == PortsNamedIn(s.portData, o.managedPorts)
  {
    if s.activeMarkerId.Some? && StartsWith(s.activeMarkerId.value, OfficePrefix) then
      match FindOffice(s.officeData, s.activeMarkerId.value)
      case None => []
      case Some(o) => PortsNamedIn(s.portData, o.managedPorts)
    else []
  }

  /**
    `updateGlobeData`: the list handed to the renderer, `None` when there
    is no renderer. Any mode but "offices" shows everything; "offices" mode
    shows the offices, followed by the ports of the active office.
   */
  function UpdateGlobeData(s: State): (r: Option<seq<Marker>>)
    ensures r.None? <==> !s.hasGlobe
    ensures s.hasGlobe && s.viewMode != OfficesMode ==> r == Some(s.combinedData)
    ensures s.hasGlobe && s.viewMode == OfficesMode ==>
              && r.Some?
              && |r.value| >= |s.officeData|
              && r.value[..|s.officeData|] == OfficeMarkers(s.officeData)
              && r.value[|s.officeData|..] == PortMarkers(PortsOfActiveOffice(s))
              && (forall m :: m in r.value[|s.officeData|..] <==>
                    m.PortMarker? && m.port in PortsOfActiveOffice(s))
              && (s.activeMarkerId.None? || !StartsWith(s.activeMarkerId.value, OfficePrefix) ==>
                    r.value == OfficeMarkers(s.officeData))
  {
    if !s.hasGlobe then None
    else if s.viewMode == OfficesMode then
      Some(OfficeMarkers(s.officeData) + PortMarkers(PortsOfActiveOffice(s)))
    else Some(s.combinedData)
  }

  /** Changing the radio button: store the mode, clear the active marker, refresh. */
  function ChangeViewMode(s: State, mode: string): (r: (State, Option<seq<Marker>>))
    ensures r.0 == s.(viewMode := mode, activeMarkerId := None)
    ensures !s.hasGlobe ==> r.1.None?
    ensures s.hasGlobe && mode == OfficesMode ==> r.1 == Some(OfficeMarkers(s.officeData))
    ensures s.hasGlobe && mode != OfficesMode ==> r.1 == Some(s.combinedData)
  {
    var s' := ClearMarkerState(s.(viewMode := mode));
    (s', UpdateGlobeData(s'))
  }

  /**
    The delayed part of `setActiveLocation`: activate the record's marker,
    then refresh the displayed markers. Without a record or a renderer
    nothing happens. The camera move and the delay itself are not modelled.
   */
  function SetActiveLocation(s: State, data: Option<Marker>, rendered: set<string>): (r: (State, Option<seq<Marker>>))
    ensures data.None? || !s.hasGlobe ==> r == (s, None)
    ensures data.Some? && s.hasGlobe && data.value.Id() == "" ==> r.0 == s
    ensures data.Some? && s.hasGlobe && data.value.Id() != "" ==>
              r.0.activeMarkerId == (if data.value.Id() in rendered then Some(data.value.Id()) else None)
    ensures data.Some? && s.hasGlobe ==>
              && r.0 == s.(activeMarkerId := r.0.activeMarkerId)
              && r.1 == UpdateGlobeData(r.0)
  {
    if data.None? || !s.hasGlobe then (s, None)
    else
      var s' := ActivateMarker(s, Some(data.value.Id()), rendered);
      (s', UpdateGlobeData(s'))
  }

  // ---------------------------------------------------------------------------
  // What the office filter shows
  // ---------------------------------------------------------------------------

  /** On loaded data, office `office-i` is found by its id and is the i-th office. */
  lemma FindLoadedOffice(offices: seq<Office>, i: nat)
    requires forall k :: 0 <= k < |offices| ==> offices[k].id == OfficeId(k)
    requires i < |offices|
    ensures FindOffice(offices, OfficeId(i)) == Some(offices[i])
  {
    var r := FindOffice(offices, OfficeId(i));
    assert offices[i].id == OfficeId(i);
    var k :| 0 <= k < |offices| && offices[k] == r.value && forall j :: 0 <= j < k ==> offices[j].id != OfficeId(i);
    IdsAreDistinct(k, i);
  }

  /** A port matched to a location by its location string is named in that office's list. */
  lemma ManagedPortsNameMatchedPort(ports: seq<PortRow>, location: string, j: nat)
    requires j < |ports| && ports[j].location == location
    ensures Includes(Join(PortNames(PortsAt(ports, location)), ", "), ports[j].port)
  {
    var matched := PortsAt(ports, location);
    assert ports[j] in matched;
    var m :| 0 <= m < |matched| && matched[m] == ports[j];
    assert PortNames(matched)[m] == ports[j].port;
    JoinIncludesEachPart(PortNames(matched), ", ", m);
  }

  /** With office `office-i` active on loaded data, the shown ports are those named in its list. */
  lemma ActiveLoadedOffice(s: State, i: nat)
    requires forall k :: 0 <= k < |s.officeData| ==> s.officeData[k].id == OfficeId(k)
    requires i < |s.officeData|
    requires s.activeMarkerId == Some(OfficeId(i))
    ensures PortsOfActiveOffice(s) == PortsNamedIn(s.portData, s.officeData[i].managedPorts)
  {
    FindLoadedOffice(s.officeData, i);
    OfficePrefixSeparatesKinds(i, 0);
  }

  /**
    Activating a rendered office `office-i` in "offices" mode on loaded data
    makes it the active marker and shows all offices followed by the ports
    named in that office's list.
   */
  lemma ActivatingOfficeShowsItsPorts(s: State, i: nat, rendered: set<string>)
    requires s.hasGlobe && s.viewMode == OfficesMode
    requires forall k :: 0 <= k < |s.officeData| ==> s.officeData[k].id == OfficeId(k)
    requires i < |s.officeData|
    requires OfficeId(i) in rendered
    ensures var r := SetActiveLocation(s, Some(OfficeMarker(s.officeData[i])), rendered);
            && r.0.activeMarkerId == Some(OfficeId(i))
            && r.1 == Some(OfficeMarkers(s.officeData) +
                           PortMarkers(PortsNamedIn(s.portData, s.officeData[i].managedPorts)))
  {
    var r := SetActiveLocation(s, Some(OfficeMarker(s.officeData[i])), rendered);
    OfficePrefixSeparatesKinds(i, 0);
    ActiveLoadedOffice(r.0, i);
    var shown := r.1.value;
    assert shown == shown[..|s.officeData|] + shown[|s.officeData|..];
  }

  /**
    Completeness of the office filter: with office `office-i` active in
    "offices" mode, every port whose location string equals that office's
    location is shown.
   */
  lemma ActiveOfficeShowsItsPorts(s: State, ports: seq<PortRow>, locations: seq<LocationRow>, i: nat, j: nat)
    requires i < |locations| && j < |ports|
    requires ports[j].location == locations[i].location
    ensures var loaded := FetchPortData(s, Parsed(ports, locations)).state
                          .(hasGlobe := true, viewMode := OfficesMode, activeMarkerId := Some(OfficeId(i)));
            var shown := UpdateGlobeData(loaded);
            shown.Some? && PortMarker(loaded.portData[j]) in shown.value
  {
    var portData := ProcessPorts(ports);
    var offices := ProcessOffices(ports, locations);
    var loaded := FetchPortData(s, Parsed(ports, locations)).state
                  .(hasGlobe := true, viewMode := OfficesMode, activeMarkerId := Some(OfficeId(i)));
    assert loaded.officeData == offices && loaded.portData == portData;
    ActiveLoadedOffice(loaded, i);
    ManagedPortsNameMatchedPort(ports, locations[i].location, j);
    assert Includes(offices[i].managedPorts, portData[j].name);
    assert portData[j] in PortsOfActiveOffice(loaded);
    var shown := UpdateGlobeData(loaded).value;
    assert PortMarker(portData[j]) in shown[|offices|..];
    assert shown == shown[..|offices|] + shown[|offices|..];
  }

  /**
    The filter matches by substring, so it can also show a port of another
    location: with "Long Beach" managed by office-0, a port named "Long"
    at a different location is shown too.
   */
  lemma SubstringMatchOverIncludes()
    ensures var ports := [PortRow("Long Beach", "", "", "", "A"), PortRow("Long", "", "", "", "B")];
            var locations := [LocationRow("A", "", "", "", "", ""), LocationRow("B", "", "", "", "", "")];
            var loaded := FetchPortData(InitialState, Parsed(ports, locations)).state
                          .(hasGlobe := true, activeMarkerId := Some(OfficeId(0)));
            && ports[1].location != locations[0].location
            && PortMarker(loaded.portData[1]) in UpdateGlobeData(loaded).value
  {
    var ports := [PortRow("Long Beach", "", "", "", "A"), PortRow("Long", "", "", "", "B")];
    var locations := [LocationRow("A", "", "", "", "", ""), LocationRow("B", "", "", "", "", "")];
    var loaded := FetchPortData(InitialState, Parsed(ports, locations)).state
                  .(hasGlobe := true, activeMarkerId := Some(OfficeId(0)));
    var offices := loaded.officeData;
    FindLoadedOffice(offices, 0);
    OfficePrefixSeparatesKinds(0, 0);
    var matched := PortsAt(ports, "A");
    assert matched == [ports[0]];
    assert offices[0].managedPorts == "Long Beach";
    assert "Long" <= "Long Beach";
    assert loaded.portData[1].name == "Long";
    assert loaded.portData[1] in PortsOfActiveOffice(loaded);
    var shown := UpdateGlobeData(loaded).value;
    assert PortMarker(loaded.portData[1]) in shown[|offices|..];
  }
}
