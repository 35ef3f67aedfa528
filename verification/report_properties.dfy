/** What the report promises about its structure: one section per
    reported area, one fragment per device, one list item per programmed
    device, printed counts that match what follows them, and tags that
    balance except for the areas div, which stays open. */
module ReportProperties {
  import opened Results
  import opened Html
  import opened Format
  import opened Catalog
  import opened Report

  // ---------------------------------------------------------------------
  // Element ids

  /** The element id of a 32-bit serial number is "0x" and eight
      hexadecimal digits that denote the serial number. */
  lemma ElementIdDigits(n: int)
    requires 0 <= n < 0x1_0000_0000
    ensures |ElementId(n)| == 10 && ElementId(n)[..2] == "0x"
    ensures AllDigits(ElementId(n)[2..], 16) && Value(ElementId(n)[2..], 16) == n
  {
    Hex8Value(n);
    assert ElementId(n)[2..] == Hex8(n);
  }

  /** Devices with distinct serial numbers get distinct element ids. */
  lemma ElementIdInjective(a: int, b: int)
    requires ElementId(a) == ElementId(b)
    ensures a == b
  {
    assert ElementId(a)[2..] == Hex8(a);
    assert ElementId(b)[2..] == Hex8(b);
    Hex8Injective(a, b);
  }

  // ---------------------------------------------------------------------
  // Order: the report follows its rows

  /** The root filter keeps the other rows in their order: it distributes
      over concatenation and drops exactly the rows named "root". */
  lemma {:induction false} ReportedAreasAppend(a: seq<AreaRow>, b: seq<AreaRow>)
    ensures ReportedAreas(a + b) == ReportedAreas(a) + ReportedAreas(b)
    decreases |a|
  {
    if a == [] {
      assert a + b == b;
    } else {
      assert (a + b)[0] == a[0] && (a + b)[1..] == a[1..] + b;
      ReportedAreasAppend(a[1..], b);
    }
  }

  lemma ReportedAreasSingle(a: AreaRow)
    ensures ReportedAreas([a]) == if a.name == RootAreaName then [] else [a]
  {
    assert [a][1..] == [];
  }

  /** The sections of consecutive area lists follow each other. */
  lemma {:induction false} SectionsAppend(db: Database, a: seq<AreaRow>, b: seq<AreaRow>)
    ensures Sections(db, a + b) == Sections(db, a) + Sections(db, b)
    decreases |a|
  {
    if a == [] {
      assert a + b == b;
    } else {
      assert (a + b)[0] == a[0] && (a + b)[1..] == a[1..] + b;
      SectionsAppend(db, a[1..], b);
    }
  }

  lemma SectionsSingle(db: Database, a: AreaRow)
    ensures Sections(db, [a]) == Section(db, a)
  {
    assert [a][1..] == [];
    assert Section(db, a) + [] == Section(db, a);
  }

  /** The fragments of consecutive device lists follow each other. */
  lemma {:induction false} FragmentsAppend(db: Database, a: seq<DeviceRow>, b: seq<DeviceRow>)
    ensures Fragments(db, a + b) == Fragments(db, a) + Fragments(db, b)
    decreases |a|
  {
    if a == [] {
      assert a + b == b;
    } else {
      assert (a + b)[0] == a[0] && (a + b)[1..] == a[1..] + b;
      FragmentsAppend(db, a[1..], b);
    }
  }

  lemma FragmentsSingle(db: Database, d: DeviceRow)
    ensures Fragments(db, [d]) == Fragment(db, d)
  {
    assert [d][1..] == [];
    assert Fragment(db, d) + [] == Fragment(db, d);
  }

  /** The list items of consecutive row lists follow each other. */
  lemma {:induction false} ItemLinesAppend(a: seq<ProgrammedRow>, b: seq<ProgrammedRow>)
    ensures ItemLines(a + b) == ItemLines(a) + ItemLines(b)
    decreases |a|
  {
    if a == [] {
      assert a + b == b;
    } else {
      var block := [[ItemOpen], [Text(ItemText(a[0]))], [ItemClose]];
      assert (a + b)[0] == a[0] && (a + b)[1..] == a[1..] + b;
      ItemLinesAppend(a[1..], b);
      calc {
        ItemLines(a + b);
        block + ItemLines(a[1..] + b);
        block + (ItemLines(a[1..]) + ItemLines(b));
        (block + ItemLines(a[1..])) + ItemLines(b);
      }
    }
  }

  lemma {:induction false} ItemLinesLength(rows: seq<ProgrammedRow>)
    ensures |ItemLines(rows)| == 3 * |rows|
    decreases |rows|
  {
    if rows != [] {
      ItemLinesLength(rows[1..]);
    }
  }

  /** The i-th programmed row is printed as the i-th list item: its three
      lines come after the three lines of each earlier row. */
  lemma ItemLinesAt(rows: seq<ProgrammedRow>, i: nat)
    requires i < |rows|
    ensures ItemLines(rows)
      == ItemLines(rows[..i]) + [[ItemOpen], [Text(ItemText(rows[i]))], [ItemClose]] + ItemLines(rows[i + 1..])
    ensures |ItemLines(rows[..i])| == 3 * i
  {
    assert rows == rows[..i] + [rows[i]] + rows[i + 1..];
    ItemLinesAppend(rows[..i] + [rows[i]], rows[i + 1..]);
    ItemLinesAppend(rows[..i], [rows[i]]);
    assert [rows[i]][1..] == [];
    assert ItemLines([rows[i]]) == [[ItemOpen], [Text(ItemText(rows[i]))], [ItemClose]] + [];
    ItemLinesLength(rows[..i]);
  }

  // ---------------------------------------------------------------------
  // The shapes of fragments and sections, for any tokens in their slots

  lemma ControlShapeCount(cd: Token, h: Token, ad: Token, items: seq<Line>, p: Token -> bool)
    ensures var f := [[cd], [h], [DivClose, ad, ListOpen]] + items + [[ListClose, DivClose]];
      f[1] == [h]
      && CountWhere(Flatten(f), p)
         == Ind(p, cd) + Ind(p, h) + Ind(p, DivClose) + Ind(p, ad) + Ind(p, ListOpen)
            + CountWhere(Flatten(items), p) + Ind(p, ListClose) + Ind(p, DivClose)
  {
    var l0, l1, l2, l3: Line := [cd], [h], [DivClose, ad, ListOpen], [ListClose, DivClose];
    FlattenFrame([l0, l1, l2], items, [l3]);
    Flatten3(l0, l1, l2);
    var fi := Flatten(items);
    CountAppend(l0 + l1 + l2 + fi, l3, p);
    CountAppend(l0 + l1 + l2, fi, p);
    CountAppend(l0 + l1, l2, p);
    CountAppend(l0, l1, p);
    Count1(cd, p);
    Count1(h, p);
    Count3(DivClose, ad, ListOpen, p);
    Count2(ListClose, DivClose, p);
  }

  lemma ControlShapeBalanced(cd: Token, h: Token, ad: Token, items: seq<Line>)
    requires cd.Open? && cd.tag == Div && Neutral(h) && ad.Open? && ad.tag == Div
    requires Balanced(Flatten(items))
    ensures Balanced(Flatten([[cd], [h], [DivClose, ad, ListOpen]] + items + [[ListClose, DivClose]]))
  {
    var l0, l1, l2, l3: Line := [cd], [h], [DivClose, ad, ListOpen], [ListClose, DivClose];
    FlattenFrame([l0, l1, l2], items, [l3]);
    Flatten3(l0, l1, l2);
    var fi := Flatten(items);
    BalancedNeutral([h]);
    BalancedWrap(Div, cd.attrs, [h]);
    BalancedWrap(Ul, "", fi);
    var list := [ListOpen] + fi + [ListClose];
    BalancedWrap(Div, ad.attrs, list);
    var first, second := [cd] + [h] + [DivClose], [ad] + list + [DivClose];
    BalancedAppend(first, second);
    assert l0 + l1 + l2 + fi + l3 == first + second;
  }

  lemma LoadShape(ld: Token, h: Token, p: Token -> bool)
    ensures Flatten([[ld], [h], [DivClose]]) == [ld, h, DivClose]
    ensures CountWhere(Flatten([[ld], [h], [DivClose]]), p) == Ind(p, ld) + Ind(p, h) + Ind(p, DivClose)
    ensures ld.Open? && ld.tag == Div && Neutral(h) ==> Balanced(Flatten([[ld], [h], [DivClose]]))
  {
    Flatten3([ld], [h], [DivClose]);
    Count3(ld, h, DivClose, p);
    if ld.Open? && ld.tag == Div && Neutral(h) {
      BalancedNeutral([h]);
      BalancedWrap(Div, ld.attrs, [h]);
    }
  }

  lemma SectionShapeCount(ad: Token, h: Token, dd: Token, frags: seq<Line>, p: Token -> bool)
    ensures var f := [[ad], [h], [dd, ListOpen]] + frags + [SectionClose];
      f[1] == [h]
      && CountWhere(Flatten(f), p)
         == Ind(p, ad) + Ind(p, h) + Ind(p, dd) + Ind(p, ListOpen)
            + CountWhere(Flatten(frags), p) + Ind(p, ListClose) + Ind(p, DivClose) + Ind(p, DivClose)
  {
    var l0, l1, l2: Line := [ad], [h], [dd, ListOpen];
    FlattenFrame([l0, l1, l2], frags, [SectionClose]);
    Flatten3(l0, l1, l2);
    var ff := Flatten(frags);
    CountAppend(l0 + l1 + l2 + ff, SectionClose, p);
    CountAppend(l0 + l1 + l2, ff, p);
    CountAppend(l0 + l1, l2, p);
    CountAppend(l0, l1, p);
    Count1(ad, p);
    Count1(h, p);
    Count2(dd, ListOpen, p);
    Count3(ListClose, DivClose, DivClose, p);
  }

  lemma SectionShapeBalanced(ad: Token, h: Token, dd: Token, frags: seq<Line>)
    requires ad.Open? && ad.tag == Div && Neutral(h) && dd.Open? && dd.tag == Div
    requires Balanced(Flatten(frags))
    ensures Balanced(Flatten([[ad], [h], [dd, ListOpen]] + frags + [SectionClose]))
  {
    var l0, l1, l2: Line := [ad], [h], [dd, ListOpen];
    FlattenFrame([l0, l1, l2], frags, [SectionClose]);
    Flatten3(l0, l1, l2);
    var ff := Flatten(frags);
    BalancedWrap(Ul, "", ff);
    var list := [ListOpen] + ff + [ListClose];
    BalancedWrap(Div, dd.attrs, list);
    var devices := [dd] + list + [DivClose];
    BalancedNeutral([h]);
    BalancedAppend([h], devices);
    BalancedWrap(Div, ad.attrs, [h] + devices);
    assert l0 + l1 + l2 + ff + SectionClose == [ad] + ([h] + devices) + [DivClose];
  }

  // ---------------------------------------------------------------------
  // Device fragments

  lemma {:induction false} ItemCount(rows: seq<ProgrammedRow>)
    ensures CountWhere(Flatten(ItemLines(rows)), IsItem) == |rows|
    ensures CountWhere(Flatten(ItemLines(rows)), IsList) == 0
    ensures CountWhere(Flatten(ItemLines(rows)), IsDeviceDiv) == 0
    ensures CountWhere(Flatten(ItemLines(rows)), IsAreaDiv) == 0
    ensures Balanced(Flatten(ItemLines(rows)))
    decreases |rows|
  {
    if rows == [] {
      BalancedNeutral([]);
    } else {
      var text := Text(ItemText(rows[0]));
      var lines: seq<Line> := [[ItemOpen], [text], [ItemClose]];
      var head := [ItemOpen] + [text] + [ItemClose];
      var rest := Flatten(ItemLines(rows[1..]));
      Flatten3([ItemOpen], [text], [ItemClose]);
      FlattenAppend(lines, ItemLines(rows[1..]));
      ItemCount(rows[1..]);
      assert head == [ItemOpen, text, ItemClose];
      Count3(ItemOpen, text, ItemClose, IsItem);
      Count3(ItemOpen, text, ItemClose, IsList);
      Count3(ItemOpen, text, ItemClose, IsDeviceDiv);
      Count3(ItemOpen, text, ItemClose, IsAreaDiv);
      CountAppend(head, rest, IsItem);
      CountAppend(head, rest, IsList);
      CountAppend(head, rest, IsDeviceDiv);
      CountAppend(head, rest, IsAreaDiv);
      BalancedNeutral([text]);
      BalancedWrap(Li, "", [text]);
      BalancedAppend(head, rest);
    }
  }

  /** A control fragment prints the number of programmed rows in its
      heading and then holds exactly that many list items, in one
      assigned-devices list. */
  lemma ControlFragmentCounts(d: DeviceRow, k: ControlKind, rows: seq<ProgrammedRow>)
    ensures CountWhere(Flatten(ControlFragment(d, k, rows)), IsItem) == |rows|
    ensures ControlFragment(d, k, rows)[1]
      == [Text(ControlHeading(d, k, CountWhere(Flatten(ControlFragment(d, k, rows)), IsItem)))]
    ensures CountWhere(Flatten(ControlFragment(d, k, rows)), IsList) == 1
  {
    var id := ElementId(d.serialNumber);
    var cd, h, ad := ControlDiv(id), Text(ControlHeading(d, k, |rows|)), AssignedDiv(id);
    ItemCount(rows);
    ControlShapeCount(cd, h, ad, ItemLines(rows), IsItem);
    ControlShapeCount(cd, h, ad, ItemLines(rows), IsList);
  }

  /** A control fragment is one device fragment and no area section. */
  lemma ControlFragmentClasses(d: DeviceRow, k: ControlKind, rows: seq<ProgrammedRow>)
    ensures CountWhere(Flatten(ControlFragment(d, k, rows)), IsDeviceDiv) == 1
    ensures CountWhere(Flatten(ControlFragment(d, k, rows)), IsAreaDiv) == 0
  {
    var id := ElementId(d.serialNumber);
    var cd, h, ad := ControlDiv(id), Text(ControlHeading(d, k, |rows|)), AssignedDiv(id);
    ItemCount(rows);
    ControlShapeCount(cd, h, ad, ItemLines(rows), IsDeviceDiv);
    ControlShapeCount(cd, h, ad, ItemLines(rows), IsAreaDiv);
  }

  /** The control div closes right after the heading; the assigned-devices
      div and its list close at the end of the fragment. */
  lemma ControlFragmentBalanced(d: DeviceRow, k: ControlKind, rows: seq<ProgrammedRow>)
    ensures Balanced(Flatten(ControlFragment(d, k, rows)))
  {
    var id := ElementId(d.serialNumber);
    ItemCount(rows);
    ControlShapeBalanced(ControlDiv(id), Text(ControlHeading(d, k, |rows|)), AssignedDiv(id), ItemLines(rows));
  }

  /** A load controller's fragment is one div naming the device and its
      stripped firmware revision: it lists nothing, it is balanced, and it
      depends on its own row alone, not on any programming query. */
  lemma LoadFragmentStandsAlone(db: Database, db': Database, d: DeviceRow)
    requires Classify(d.classInfoId) == LoadController
    ensures Fragment(db, d) == Fragment(db', d)
    ensures Flatten(Fragment(db, d)) == [LoadDiv(ElementId(d.serialNumber)), Text(LoadHeading(d)), DivClose]
    ensures CountWhere(Flatten(Fragment(db, d)), IsItem) == 0
    ensures CountWhere(Flatten(Fragment(db, d)), IsList) == 0
    ensures CountWhere(Flatten(Fragment(db, d)), IsDeviceDiv) == 1
    ensures CountWhere(Flatten(Fragment(db, d)), IsAreaDiv) == 0
    ensures Balanced(Flatten(Fragment(db, d)))
  {
    var ld, h := LoadDiv(ElementId(d.serialNumber)), Text(LoadHeading(d));
    LoadShape(ld, h, IsItem);
    LoadShape(ld, h, IsList);
    LoadShape(ld, h, IsDeviceDiv);
    LoadShape(ld, h, IsAreaDiv);
  }

  /** Each device row yields one device fragment, balanced; a control
      device's fragment has one list item per row of its kind's
      programming query. */
  lemma FragmentCounts(db: Database, d: DeviceRow)
    ensures CountWhere(Flatten(Fragment(db, d)), IsDeviceDiv) == 1
    ensures CountWhere(Flatten(Fragment(db, d)), IsAreaDiv) == 0
    ensures Classify(d.classInfoId).Control? ==>
      CountWhere(Flatten(Fragment(db, d)), IsItem) == |ProgrammedFor(db, Classify(d.classInfoId).kind, d.deviceId)|
    ensures Balanced(Flatten(Fragment(db, d)))
  {
    match Classify(d.classInfoId)
    case Control(k) =>
      ControlFragmentCounts(d, k, ProgrammedFor(db, k, d.deviceId));
      ControlFragmentClasses(d, k, ProgrammedFor(db, k, d.deviceId));
      ControlFragmentBalanced(d, k, ProgrammedFor(db, k, d.deviceId));
    case LoadController =>
      LoadFragmentStandsAlone(db, db, d);
  }

  lemma {:induction false} FragmentsCount(db: Database, devices: seq<DeviceRow>)
    ensures CountWhere(Flatten(Fragments(db, devices)), IsDeviceDiv) == |devices|
    ensures CountWhere(Flatten(Fragments(db, devices)), IsAreaDiv) == 0
    ensures Balanced(Flatten(Fragments(db, devices)))
    decreases |devices|
  {
    if devices == [] {
      BalancedNeutral([]);
    } else {
      var first, rest := Flatten(Fragment(db, devices[0])), Flatten(Fragments(db, devices[1..]));
      FragmentsCount(db, devices[1..]);
      FragmentCounts(db, devices[0]);
      FlattenAppend(Fragment(db, devices[0]), Fragments(db, devices[1..]));
      CountAppend(first, rest, IsDeviceDiv);
      CountAppend(first, rest, IsAreaDiv);
      BalancedAppend(first, rest);
    }
  }

  // ---------------------------------------------------------------------
  // Area sections

  /** An area section is one area div; its heading prints the number of
      device rows of its area, and it holds exactly that many device
      fragments. The section closes the area div, the devices div and the
      list it opens. */
  lemma SectionCounts(db: Database, a: AreaRow)
    ensures CountWhere(Flatten(Section(db, a)), IsDeviceDiv) == |DevicesIn(db, a.areaId)|
    ensures Section(db, a)[1]
      == [Text(AreaHeading(a.name, CountWhere(Flatten(Section(db, a)), IsDeviceDiv)))]
    ensures CountWhere(Flatten(Section(db, a)), IsAreaDiv) == 1
    ensures Balanced(Flatten(Section(db, a)))
  {
    var devices := DevicesIn(db, a.areaId);
    var ad, h, dd := AreaDiv(a.name), Text(AreaHeading(a.name, |devices|)), DevicesDiv(a.name);
    FragmentsCount(db, devices);
    SectionShapeCount(ad, h, dd, Fragments(db, devices), IsDeviceDiv);
    SectionShapeCount(ad, h, dd, Fragments(db, devices), IsAreaDiv);
    SectionShapeBalanced(ad, h, dd, Fragments(db, devices));
  }

  /** The number of device rows over a list of areas. */
  function TotalDevices(db: Database, areas: seq<AreaRow>): nat
    decreases |areas|
  {
    if areas == [] then 0 else |DevicesIn(db, areas[0].areaId)| + TotalDevices(db, areas[1..])
  }

  lemma {:induction false} SectionsCount(db: Database, areas: seq<AreaRow>)
    ensures CountWhere(Flatten(Sections(db, areas)), IsAreaDiv) == |areas|
    ensures CountWhere(Flatten(Sections(db, areas)), IsDeviceDiv) == TotalDevices(db, areas)
    ensures Balanced(Flatten(Sections(db, areas)))
    decreases |areas|
  {
    if areas == [] {
      BalancedNeutral([]);
    } else {
      var first, rest := Flatten(Section(db, areas[0])), Flatten(Sections(db, areas[1..]));
      SectionsCount(db, areas[1..]);
      SectionCounts(db, areas[0]);
      FlattenAppend(Section(db, areas[0]), Sections(db, areas[1..]));
      CountAppend(first, rest, IsAreaDiv);
      CountAppend(first, rest, IsDeviceDiv);
      BalancedAppend(first, rest);
    }
  }

  // ---------------------------------------------------------------------
  // The preamble and the whole document

  /** No token opens a div. */
  predicate NoDivOpened(ts: seq<Token>) {
    forall i :: 0 <= i < |ts| ==> !(ts[i].Open? && ts[i].tag == Div)
  }

  lemma NoDivOpenedAppend(a: seq<Token>, b: seq<Token>)
    requires NoDivOpened(a) && NoDivOpened(b)
    ensures NoDivOpened(a + b)
  {
    forall i | 0 <= i < |a + b| ensures !((a + b)[i].Open? && (a + b)[i].tag == Div) {
      if i >= |a| {
        assert (a + b)[i] == b[i - |a|];
      }
    }
  }

  lemma NoDivOpenedCounts(ts: seq<Token>)
    requires NoDivOpened(ts)
    ensures CountWhere(ts, IsAreaDiv) == 0 && CountWhere(ts, IsDeviceDiv) == 0
  {
    CountNone(ts, IsAreaDiv);
    CountNone(ts, IsDeviceDiv);
  }

  /** Each hub row prints its serial number under `%08X`, with no "0x"
      prefix, followed by a line break, in row order. */
  lemma {:induction false} HubLinesAt(hubs: seq<HubRow>, i: nat)
    requires i < |hubs|
    ensures |HubLines(hubs)| == 2 * |hubs|
    ensures HubLines(hubs)[2 * i] == [Text("Hub Serial: " + Hex8(hubs[i].serialNumber))]
    ensures HubLines(hubs)[2 * i + 1] == [LineBreak]
    decreases |hubs|
  {
    if |hubs| > 1 {
      HubLinesAt(hubs[1..], if i == 0 then 0 else i - 1);
    }
    if i > 0 {
      assert hubs[1..][i - 1] == hubs[i];
    }
  }

  lemma {:induction false} HubLinesNeutral(hubs: seq<HubRow>)
    ensures AllNeutral(Flatten(HubLines(hubs)))
    decreases |hubs|
  {
    if hubs != [] {
      var t := Text("Hub Serial: " + Hex8(hubs[0].serialNumber));
      var lines: seq<Line> := [[t], [LineBreak]];
      HubLinesNeutral(hubs[1..]);
      FlattenAppend(lines, HubLines(hubs[1..]));
      Flatten2([t], [LineBreak]);
      AllNeutralAppend([t], [LineBreak]);
      AllNeutralAppend([t] + [LineBreak], Flatten(HubLines(hubs[1..])));
    }
  }

  /** A void element, an element with no content and another void
      element, as in the notes box. */
  lemma NotesShape(v: Token, o: Token, w: Token)
    requires v.Void? && o.Open? && o.tag != Div && w.Void?
    ensures Run([], [v, o, Close(o.tag), w]) == Some([])
    ensures NoDivOpened([v, o, Close(o.tag), w])
  {
    var t := [v, o, Close(o.tag), w];
    assert [o][..0] == [];
    assert Run([], t) == Run([], t[1..]) == Run([o], t[2..]) == Run([], t[3..]) == Run([], t[4..]);
  }

  lemma NotesBoxRun()
    ensures Run([], NotesBox) == Some([])
    ensures NoDivOpened(NotesBox)
  {
    NotesShape(LineBreak, NotesBox[1], LineBreak);
  }

  /** Each Wi-Fi row prints its SSID, then the notes box, in row order. */
  lemma {:induction false} WifiLinesAt(wifis: seq<WifiRow>, i: nat)
    requires i < |wifis|
    ensures |WifiLines(wifis)| == 2 * |wifis|
    ensures WifiLines(wifis)[2 * i] == [Text("Wifi Name: " + wifis[i].ssid)]
    ensures WifiLines(wifis)[2 * i + 1] == NotesBox
    decreases |wifis|
  {
    if |wifis| > 1 {
      WifiLinesAt(wifis[1..], if i == 0 then 0 else i - 1);
    }
    if i > 0 {
      assert wifis[1..][i - 1] == wifis[i];
    }
  }

  lemma {:induction false} WifiLinesBalanced(wifis: seq<WifiRow>)
    ensures Balanced(Flatten(WifiLines(wifis)))
    ensures NoDivOpened(Flatten(WifiLines(wifis)))
    decreases |wifis|
  {
    if wifis == [] {
      BalancedNeutral([]);
    } else {
      var t := Text("Wifi Name: " + wifis[0].ssid);
      var lines: seq<Line> := [[t], NotesBox];
      var rest := Flatten(WifiLines(wifis[1..]));
      WifiLinesBalanced(wifis[1..]);
      FlattenAppend(lines, WifiLines(wifis[1..]));
      Flatten2([t], NotesBox);
      NotesBoxRun();
      BalancedIff(NotesBox);
      BalancedNeutral([t]);
      BalancedAppend([t], NotesBox);
      BalancedAppend([t] + NotesBox, rest);
      NoDivOpenedAppend([t], NotesBox);
      NoDivOpenedAppend([t] + NotesBox, rest);
    }
  }

  /** The boilerplate's shape: a comment and two empty elements, then a
      comment and one more. */
  lemma BoilerplateShape(c: Token, o1: Token, o2: Token, c': Token, o3: Token)
    requires c.Comment? && c'.Comment?
    requires o1.Open? && o2.Open? && o3.Open? && o1.tag != Div && o2.tag != Div && o3.tag != Div
    ensures var t := [c, o1, Close(o1.tag), o2, Close(o2.tag), c', o3, Close(o3.tag)];
      Run([], t) == Some([]) && NoDivOpened(t)
  {
    var t1, t2, t3 := [c] + [o1, Close(o1.tag)], [] + [o2, Close(o2.tag)], [c'] + [o3, Close(o3.tag)];
    EmptyElementRun([c], o1);
    EmptyElementRun([], o2);
    EmptyElementRun([c'], o3);
    RunAppend([], t1, t2);
    RunAppend([], t1 + t2, t3);
    assert [c, o1, Close(o1.tag), o2, Close(o2.tag), c', o3, Close(o3.tag)] == t1 + t2 + t3;
  }

  /** Neutral tokens followed by an empty element leave the stack as it was. */
  lemma EmptyElementRun(pre: seq<Token>, o: Token)
    requires AllNeutral(pre) && o.Open?
    ensures Run([], pre + [o, Close(o.tag)]) == Some([])
  {
    RunNeutral([], pre);
    RunElement([], o, []);
    assert [o] + [] + [Close(o.tag)] == [o, Close(o.tag)];
    RunAppend([], pre, [o, Close(o.tag)]);
  }

  lemma BoilerplateRun()
    ensures Run([], Boilerplate) == Some([])
    ensures NoDivOpened(Boilerplate)
  {
    BoilerplateShape(Boilerplate[0], Boilerplate[1], Boilerplate[3], Boilerplate[5], Boilerplate[6]);
  }

  lemma PrintButtonRun()
    ensures Run([], PrintButton) == Some([]) && NoDivOpened(PrintButton)
  {
  }

  /** Two links with a text between them. */
  lemma LinksShape(a1: Token, x1: Token, t: Token, a2: Token, x2: Token)
    requires a1.Open? && a2.Open? && a1.tag != Div && a2.tag != Div
    requires x1.Text? && t.Text? && x2.Text?
    ensures var ts := [a1, x1, Close(a1.tag), t, a2, x2, Close(a2.tag)];
      Run([], ts) == Some([]) && NoDivOpened(ts)
  {
    var ts := [a1, x1, Close(a1.tag), t, a2, x2, Close(a2.tag)];
    var e1, e2 := [a1] + [x1] + [Close(a1.tag)], [a2] + [x2] + [Close(a2.tag)];
    RunElement([], a1, [x1]);
    RunElement([], a2, [x2]);
    RunNeutral([], [t]);
    RunAppend([], e1, [t]);
    RunAppend([], e1 + [t], e2);
    assert ts == e1 + [t] + e2;
  }

  lemma ExpandCollapseRun()
    ensures Run([], ExpandCollapseLinks) == Some([]) && NoDivOpened(ExpandCollapseLinks)
  {
    var e := ExpandCollapseLinks;
    LinksShape(e[0], e[1], e[3], e[4], e[5]);
  }

  lemma HubInfoRun()
    ensures Run([], HubInfoOpen) == Some(HubInfoOpen)
    ensures CountWhere(HubInfoOpen, IsAreaDiv) == 0 && CountWhere(HubInfoOpen, IsDeviceDiv) == 0
  {
    var hub := HubInfoOpen[0];
    assert HubInfoOpen == [hub];
    assert Run([], [hub]) == Run([hub], []) by {
      assert [] + [hub] == [hub];
      assert [hub][1..] == [];
    }
    assert !IsAreaDiv(hub) && !IsDeviceDiv(hub);
    Count1(hub, IsAreaDiv);
    Count1(hub, IsDeviceDiv);
  }

  lemma AreasOpenRun()
    ensures Run(HubInfoOpen, AreasOpen) == Some([AreasDiv])
    ensures CountWhere(AreasOpen, IsAreaDiv) == 0 && CountWhere(AreasOpen, IsDeviceDiv) == 0
  {
    var hub := HubInfoOpen[0];
    assert HubInfoOpen == [hub];
    var t := AreasOpen;
    assert [hub][..0] == [];
    assert Run([hub], t) == Run([], t[1..]);
    assert Run([], t[1..]) == Run([], t[2..]);
    assert Run([], t[2..]) == Run([AreasDiv], []) by {
      assert [] + [AreasDiv] == [AreasDiv];
      assert t[2..][1..] == [];
    }
    assert !IsAreaDiv(AreasDiv) && !IsDeviceDiv(AreasDiv);
    Count3(DivClose, LineBreak, AreasDiv, IsAreaDiv);
    Count3(DivClose, LineBreak, AreasDiv, IsDeviceDiv);
  }

  lemma PreambleShape(b: seq<Token>, pb: seq<Token>, hi: seq<Token>, fh: seq<Token>, fw: seq<Token>,
                      ec: seq<Token>, ao: seq<Token>, p: Token -> bool)
    requires Run([], b) == Some([]) && Run([], pb) == Some([]) && Run([], hi) == Some(hi)
    requires Run(hi, fh) == Some(hi) && Run(hi, fw) == Some(hi) && Run(hi, ec) == Some(hi)
    requires Run(hi, ao) == Some([AreasDiv])
    requires CountWhere(b, p) == CountWhere(pb, p) == CountWhere(hi, p) == CountWhere(fh, p) == 0
    requires CountWhere(fw, p) == CountWhere(ec, p) == CountWhere(ao, p) == 0
    ensures Run([], b + pb + hi + fh + fw + (ec + ao)) == Some([AreasDiv])
    ensures CountWhere(b + pb + hi + fh + fw + (ec + ao), p) == 0
  {
    RunAppend([], b, pb);
    RunAppend([], b + pb, hi);
    RunAppend([], b + pb + hi, fh);
    RunAppend([], b + pb + hi + fh, fw);
    RunAppend([], b + pb + hi + fh + fw, ec + ao);
    RunAppend(hi, ec, ao);
    CountAppend(b, pb, p);
    CountAppend(b + pb, hi, p);
    CountAppend(b + pb + hi, fh, p);
    CountAppend(b + pb + hi + fh, fw, p);
    CountAppend(b + pb + hi + fh + fw, ec + ao, p);
    CountAppend(ec, ao, p);
  }

  lemma PreambleTokens(db: Database)
    ensures Flatten(Preamble(db))
      == Boilerplate + PrintButton + HubInfoOpen + Flatten(HubLines(db.hubs)) + Flatten(WifiLines(db.wifis))
         + (ExpandCollapseLinks + AreasOpen)
  {
    var pre: seq<Line> := [Boilerplate, PrintButton, HubInfoOpen];
    var post: seq<Line> := [ExpandCollapseLinks, AreasOpen];
    FlattenAppend(pre + HubLines(db.hubs) + WifiLines(db.wifis), post);
    FlattenFrame(pre, HubLines(db.hubs), WifiLines(db.wifis));
    Flatten3(Boilerplate, PrintButton, HubInfoOpen);
    Flatten2(ExpandCollapseLinks, AreasOpen);
  }

  /** The preamble closes the hub-info div it opens and leaves the areas
      div open; it holds no area section and no device fragment. */
  lemma PreambleLeavesAreasOpen(db: Database)
    ensures Run([], Flatten(Preamble(db))) == Some([AreasDiv])
    ensures CountWhere(Flatten(Preamble(db)), IsAreaDiv) == 0
    ensures CountWhere(Flatten(Preamble(db)), IsDeviceDiv) == 0
  {
    var fh, fw := Flatten(HubLines(db.hubs)), Flatten(WifiLines(db.wifis));
    PreambleTokens(db);
    BoilerplateRun();
    PrintButtonRun();
    ExpandCollapseRun();
    HubInfoRun();
    AreasOpenRun();
    RunLift(HubInfoOpen, [], ExpandCollapseLinks);
    HubLinesNeutral(db.hubs);
    RunNeutral(HubInfoOpen, fh);
    WifiLinesBalanced(db.wifis);
    assert Run(HubInfoOpen, fw) == Some(HubInfoOpen);
    PreambleNoDiv(fh);
    assert HubInfoOpen + [] == HubInfoOpen;
    NoDivOpenedCounts(Boilerplate);
    NoDivOpenedCounts(PrintButton);
    NoDivOpenedCounts(fh);
    NoDivOpenedCounts(fw);
    NoDivOpenedCounts(ExpandCollapseLinks);
    PreambleShape(Boilerplate, PrintButton, HubInfoOpen, fh, fw, ExpandCollapseLinks, AreasOpen, IsAreaDiv);
    PreambleShape(Boilerplate, PrintButton, HubInfoOpen, fh, fw, ExpandCollapseLinks, AreasOpen, IsDeviceDiv);
  }

  lemma PreambleNoDiv(ts: seq<Token>)
    requires AllNeutral(ts)
    ensures NoDivOpened(ts)
  {
  }

  lemma DocumentShape(pre: seq<Token>, body: seq<Token>, p: Token -> bool)
    requires Run([], pre) == Some([AreasDiv]) && Balanced(body)
    ensures Run([], pre + body) == Some([AreasDiv])
    ensures !Balanced(pre + body)
    ensures CountWhere(pre + body, p) == CountWhere(pre, p) + CountWhere(body, p)
  {
    RunBalancedSuffix([], pre, body);
    BalancedIff(pre + body);
    CountAppend(pre, body, p);
  }

  /** The whole document leaves exactly one element open, the areas div;
      so it is not balanced, and it holds one area section per reported
      area and one device fragment per device row of those areas. */
  lemma DocumentLeavesAreasOpen(db: Database)
    ensures Run([], Flatten(Document(db))) == Some([AreasDiv])
    ensures !Balanced(Flatten(Document(db)))
    ensures CountWhere(Flatten(Document(db)), IsAreaDiv) == |ReportedAreas(db.areas)|
    ensures CountWhere(Flatten(Document(db)), IsDeviceDiv) == TotalDevices(db, ReportedAreas(db.areas))
  {
    var pre, body := Flatten(Preamble(db)), Flatten(Sections(db, ReportedAreas(db.areas)));
    FlattenAppend(Preamble(db), Sections(db, ReportedAreas(db.areas)));
    PreambleLeavesAreasOpen(db);
    SectionsCount(db, ReportedAreas(db.areas));
    DocumentShape(pre, body, IsAreaDiv);
    DocumentShape(pre, body, IsDeviceDiv);
  }
}
