/** The data shown for one dashboard item (main.py: get_item_data): a
    visualization or chart with an id is fetched from the server, a map gets
    a fixed table of regions, a text item a one-row table of its content, and
    everything else generated data. The two server replies for the item's id
    are parameters. */
module ItemData {
  import opened Outcomes
  import opened Strings
  import opened Items
  import opened Series

  /** The regions of the map table, in row order; its coordinates are fixed
      and its values random, neither is modelled. */
  const MapRegions: seq<string> :=
    ["Dakar", "Thiès", "Diourbel", "Kaolack", "Saint-Louis", "Louga", "Fatick", "Kaffrine", "Matam", "Kédougou"]

  /** How much of a text item's content its table keeps before "...". */
  const ContentLimit: nat := 500

  /** The frame of an item: fetched or generated data, the map table, the
      one-row `Type`/`Contenu` text table, or the one-row `Erreur`/`Élément`
      error table. */
  datatype ItemFrame =
    | DataFrame(frame: Frame)
    | MapTable(regions: seq<string>)
    | TextTable(heading: string, content: string)
    | ErrorTable(error: string, element: string)

  /** The `(data, info, item_type)` triple. */
  datatype ItemData = ItemData(frame: ItemFrame, info: string, kind: string)

  /** `if item_id:` — present and non-empty. */
  predicate HasId(r: Ref) {
    Truthy(r.id)
  }

  /** The final fall-through: generated data for the name collected so far. */
  function GenericData(name: string): ItemData {
    var g := Generate(name);
    ItemData(DataFrame(g.frame), g.info, "Données génériques")
  }

  /** `get_item_data`. A null `text` makes `len` raise inside the text
      branch, which the handler turns into the error table naming "Texte". */
  function GetItemData(item: Item, first: Response, second: Response): ItemData {
    if item.visualization.Some? then
      var v := item.visualization.value;
      var name := v.name.GetOr("Visualisation");
      var kind := v.kind.GetOr("Visualisation");
      if HasId(v) then
        var f := GetVisualizationData(first, second, name);
        ItemData(DataFrame(f.frame), f.info + " | Type: " + kind, kind)
      else GenericData(name)
    else if item.chart.Some? then
      var c := item.chart.value;
      var name := c.name.GetOr("Graphique");
      if HasId(c) then
        var f := GetVisualizationData(first, second, name);
        ItemData(DataFrame(f.frame), f.info, "Chart")
      else GenericData(name)
    else if item.mapRef.Some? then
      var name := item.mapRef.value.name.GetOr("Carte");
      ItemData(MapTable(MapRegions), "Données cartographiques pour " + name, "Map")
    else
      match item.text
      case Text(content) =>
        ItemData(TextTable("Texte", Abbreviate(content, ContentLimit)), "Élément texte: Texte", "Text")
      case NullText => ItemData(ErrorTable(NoLenMessage, "Texte"), "Erreur: " + NoLenMessage, "Erreur")
      case NoText => GenericData("Élément")
  }

  /** The item's type decides the branch: the frame is a map table exactly
      for map items, a text table exactly for text items with content, and a
      data frame exactly for visualizations, charts and other items. */
  lemma DispatchFollowsItemType(item: Item, first: Response, second: Response)
    ensures ItemType(item) == MapItem <==> GetItemData(item, first, second).frame.MapTable?
    ensures ItemType(item) == TextItem && item.text.Text? <==> GetItemData(item, first, second).frame.TextTable?
    ensures ItemType(item) in {VisualizationItem, ChartItem, OtherItem}
      <==> GetItemData(item, first, second).frame.DataFrame?
  {
  }

  /** The name a visualization or chart is fetched or generated under: its
      own name, else "Visualisation" / "Graphique". With an id the table is
      the fetch chain's answer for that name, otherwise generated data for it;
      other items are generated for "Élément". */
  lemma FetchedUnderOwnName(item: Item, first: Response, second: Response)
    ensures var r := GetItemData(item, first, second);
      ItemType(item) == VisualizationItem && HasId(item.visualization.value) ==>
        var v := item.visualization.value;
        var f := GetVisualizationData(first, second, v.name.GetOr("Visualisation"));
        r.frame == DataFrame(f.frame) && r.kind == v.kind.GetOr("Visualisation")
        && r.info == f.info + " | Type: " + r.kind
    ensures var r := GetItemData(item, first, second);
      ItemType(item) == ChartItem && HasId(item.chart.value) ==>
        var f := GetVisualizationData(first, second, item.chart.value.name.GetOr("Graphique"));
        r == ItemData(DataFrame(f.frame), f.info, "Chart")
    ensures ItemType(item) == VisualizationItem && !HasId(item.visualization.value) ==>
      GetItemData(item, first, second) == GenericData(item.visualization.value.name.GetOr("Visualisation"))
    ensures ItemType(item) == ChartItem && !HasId(item.chart.value) ==>
      GetItemData(item, first, second) == GenericData(item.chart.value.name.GetOr("Graphique"))
    ensures ItemType(item) == OtherItem ==> GetItemData(item, first, second) == GenericData("Élément")
  {
  }

  /** The replies are consulted only for a visualization or chart with an id. */
  lemma RepliesUsedOnlyWithId(item: Item, first: Response, second: Response, first': Response, second': Response)
    requires !(ItemType(item) == VisualizationItem && HasId(item.visualization.value))
    requires !(ItemType(item) == ChartItem && HasId(item.chart.value))
    ensures GetItemData(item, first, second) == GetItemData(item, first', second')
  {
  }

  /** A text item's table holds at most 500 characters of its content plus
      "...", the whole content when it fits, and always the label "Texte". */
  lemma TextContentBounded(item: Item, first: Response, second: Response)
    requires ItemType(item) == TextItem && item.text.Text?
    ensures var r := GetItemData(item, first, second);
      var c := item.text.content;
      r.frame.TextTable? && r.frame.heading == "Texte" && r.kind == "Text"
      && |r.frame.content| <= ContentLimit + 3
      && (|c| <= ContentLimit ==> r.frame.content == c)
      && (|c| > ContentLimit ==> r.frame.content[..ContentLimit] == c[..ContentLimit]
                                 && r.frame.content[ContentLimit..] == "...")
  {
    AbbreviateShape(item.text.content, ContentLimit);
  }

  /** The error table appears exactly for the items on which
      `has_visualizable_data` also raises: a null text and nothing else. */
  lemma ErrorTableOnNullText(item: Item, first: Response, second: Response)
    ensures GetItemData(item, first, second).frame.ErrorTable? <==> HasVisualizableData(item).Err?
    ensures GetItemData(item, first, second).frame.ErrorTable? ==>
      GetItemData(item, first, second) == ItemData(ErrorTable(NoLenMessage, "Texte"), "Erreur: " + NoLenMessage, "Erreur")
  {
    VisualizableAgreesWithType(item);
  }
}
