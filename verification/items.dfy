/** Classification of dashboard items (main.py: get_item_type,
    has_visualizable_data, get_item_name, get_dashboard_item_types).
    An item is a JSON object whose `visualization`, `chart`, `map` and `text`
    keys decide what it is; the first three count only when truthy, `text`
    only for presence. */
module Items {
  import opened Outcomes
  import opened Strings

  /** A `visualization`, `chart` or `map` sub-object; `None` fields are absent keys. */
  datatype Ref = Ref(id: Option<string>, name: Option<string>, kind: Option<string>)

  /** The item's `text` key: absent, present with JSON `null`, or present with a string. */
  datatype TextField = NoText | NullText | Text(content: string)

  /** A dashboard item. A sub-object is `None` when its key is absent or its
      value is falsy (`null`, `{}`): the viewer treats both alike. */
  datatype Item = Item(
    itemType: Option<string>,
    visualization: Option<Ref>,
    chart: Option<Ref>,
    mapRef: Option<Ref>,
    text: TextField)

  datatype ItemKind = VisualizationItem | ChartItem | MapItem | TextItem | OtherItem

  /** The strings `get_item_type` returns. */
  function KindName(k: ItemKind): string {
    match k
    case VisualizationItem => "visualization"
    case ChartItem => "chart"
    case MapItem => "map"
    case TextItem => "text"
    case OtherItem => "other"
  }

  /** `str(e)` of the TypeError raised by `len(None)`. */
  const NoLenMessage: string := "object of type 'NoneType' has no len()"
  /** `str(e)` of the AttributeError raised by `None.strip()`. */
  const NoStripMessage: string := "'NoneType' object has no attribute 'strip'"

  /** `get_item_type`: visualization, then chart, then map, then text, else other. */
  function ItemType(item: Item): ItemKind {
    if item.visualization.Some? then VisualizationItem
    else if item.chart.Some? then ChartItem
    else if item.mapRef.Some? then MapItem
    else if item.text != NoText then TextItem
    else OtherItem
  }

  /** Which of the four tests of `get_item_type` succeed, in priority order. */
  function Populated(item: Item): seq<bool> {
    [item.visualization.Some?, item.chart.Some?, item.mapRef.Some?, item.text != NoText]
  }

  const PriorityOrder: seq<ItemKind> := [VisualizationItem, ChartItem, MapItem, TextItem]

  /** Reference reading of the priority rule: the kind of the first populated
      test, or other when none is. */
  function FirstPopulated(flags: seq<bool>, kinds: seq<ItemKind>): ItemKind
    requires |flags| == |kinds|
  {
    if |flags| == 0 then OtherItem
    else if flags[0] then kinds[0]
    else FirstPopulated(flags[1..], kinds[1..])
  }

  /** `get_item_type` picks the first populated test in the order
      visualization > chart > map > text; a present `text` key makes the item
      text whatever its content. */
  lemma ItemTypeIsFirstPopulated(item: Item)
    ensures ItemType(item) == FirstPopulated(Populated(item), PriorityOrder)
    ensures ItemType(item) == TextItem <==>
      item.visualization.None? && item.chart.None? && item.mapRef.None? && !item.text.NoText?
    ensures item.visualization.None? && item.chart.None? && item.mapRef.None? && item.text == Text("")
      ==> KindName(ItemType(item)) == "text"
  {
    var f, k := Populated(item), PriorityOrder;
    assert f[1..] == [f[1], f[2], f[3]] && k[1..] == [ChartItem, MapItem, TextItem];
    assert f[1..][1..] == [f[2], f[3]] && k[1..][1..] == [MapItem, TextItem];
    assert f[1..][1..][1..] == [f[3]] && k[1..][1..][1..] == [TextItem];
    assert FirstPopulated([f[3]], [TextItem]) == if f[3] then TextItem else FirstPopulated([], []);
    assert FirstPopulated([f[2], f[3]], [MapItem, TextItem])
      == if f[2] then MapItem else FirstPopulated([f[3]], [TextItem]);
    assert FirstPopulated([f[1], f[2], f[3]], [ChartItem, MapItem, TextItem])
      == if f[1] then ChartItem else FirstPopulated([f[2], f[3]], [MapItem, TextItem]);
  }

  /** `has_visualizable_data`; raises when the `text` value is null. */
  function HasVisualizableData(item: Item): Result<bool> {
    if item.visualization.Some? then Ok(true)
    else if item.chart.Some? then Ok(true)
    else if item.mapRef.Some? then Ok(true)
    else
      match item.text
      case NoText => Ok(false)
      case NullText => Err(NoStripMessage)
      case Text(s) => Ok(!IsBlank(s))
  }

  /** Visualizable items are never typed other; text items are visualizable
      exactly when their content is not blank; only a null text raises. */
  lemma VisualizableAgreesWithType(item: Item)
    ensures HasVisualizableData(item) == Ok(true) ==> ItemType(item) != OtherItem
    ensures HasVisualizableData(item) == Ok(true) <==>
      ItemType(item) in {VisualizationItem, ChartItem, MapItem}
      || (ItemType(item) == TextItem && item.text.Text? && !IsBlank(item.text.content))
    ensures ItemType(item) == TextItem && item.text.Text? && IsBlank(item.text.content)
      ==> HasVisualizableData(item) == Ok(false)
    ensures HasVisualizableData(item).Err? <==> ItemType(item) == TextItem && item.text == NullText
  {
  }

  /** The display label of a text item: "Texte: " and the first 50 characters,
      followed by "..." when the content was longer. */
  function TextLabel(content: string): string {
    "Texte: " + Abbreviate(content, 50)
  }

  /** The label starts with "Texte: ", is at most 60 characters long, and
      carries the whole content when it fits in 50 characters. */
  lemma TextLabelShape(content: string)
    ensures |TextLabel(content)| <= 60
    ensures TextLabel(content)[..7] == "Texte: "
    ensures |content| <= 50 ==> TextLabel(content)[7..] == content
    ensures |content| > 50 ==>
      (TextLabel(content)[7..57] == content[..50] && TextLabel(content)[57..] == "...")
  {
    AbbreviateShape(content, 50);
  }

  /** `get_item_name(item, idx)`: the sub-object's name (or a numbered default),
      the text label, or a numbered "Élément"; raises when the text is null. */
  function ItemName(item: Item, idx: nat): Result<string> {
    if item.visualization.Some? then Ok(item.visualization.value.name.GetOr("Visualisation " + Decimal(idx + 1)))
    else if item.chart.Some? then Ok(item.chart.value.name.GetOr("Graphique " + Decimal(idx + 1)))
    else if item.mapRef.Some? then Ok(item.mapRef.value.name.GetOr("Carte " + Decimal(idx + 1)))
    else
      match item.text
      case NoText => Ok("Élément " + Decimal(idx + 1))
      case NullText => Err(NoLenMessage)
      case Text(s) => Ok(TextLabel(s))
  }

  /** A name is the sub-object's own name when it has one; otherwise it ends
      with the item's 1-based position; text names are text labels. */
  lemma ItemNameSources(item: Item, idx: nat)
    ensures ItemType(item) == VisualizationItem && item.visualization.value.name.Some?
      ==> ItemName(item, idx) == Ok(item.visualization.value.name.value)
    ensures ItemType(item) == ChartItem && item.chart.value.name.Some?
      ==> ItemName(item, idx) == Ok(item.chart.value.name.value)
    ensures ItemType(item) == MapItem && item.mapRef.value.name.Some?
      ==> ItemName(item, idx) == Ok(item.mapRef.value.name.value)
    ensures ItemType(item) == VisualizationItem && item.visualization.value.name.None? ==>
      ItemName(item, idx).Ok? && StartsWith(ItemName(item, idx).value, "Visualisation ")
      && ItemName(item, idx).value[|"Visualisation "|..] == Decimal(idx + 1)
    ensures ItemType(item) == ChartItem && item.chart.value.name.None? ==>
      ItemName(item, idx).Ok? && StartsWith(ItemName(item, idx).value, "Graphique ")
      && ItemName(item, idx).value[|"Graphique "|..] == Decimal(idx + 1)
    ensures ItemType(item) == MapItem && item.mapRef.value.name.None? ==>
      ItemName(item, idx).Ok? && StartsWith(ItemName(item, idx).value, "Carte ")
      && ItemName(item, idx).value[|"Carte "|..] == Decimal(idx + 1)
    ensures ItemType(item) == OtherItem ==>
      ItemName(item, idx).Ok? && StartsWith(ItemName(item, idx).value, "Élément ")
      && ItemName(item, idx).value[|"Élément "|..] == Decimal(idx + 1)
    ensures ItemType(item) == TextItem && item.text.Text? ==>
      ItemName(item, idx).Ok? && |ItemName(item, idx).value| <= 60
      && StartsWith(ItemName(item, idx).value, "Texte: ")
    ensures ItemName(item, idx).Err? <==> HasVisualizableData(item).Err?
  {
    DecimalRoundTrip(idx + 1);
    if item.text.Text? {
      TextLabelShape(item.text.content);
    }
  }

  /** One entry of the buckets `get_dashboard_item_types` builds; the
      `details` string of an other-item (`str(item)[:100]`) is not modelled. */
  datatype Entry =
    | RefEntry(name: string, kind: string, id: string)
    | MapEntry(name: string, id: string)
    | TextEntry(name: string, content: string)
    | OtherEntry(kind: string)

  datatype Buckets = Buckets(
    visualizations: seq<Entry>,
    charts: seq<Entry>,
    maps: seq<Entry>,
    texts: seq<Entry>,
    others: seq<Entry>)
  {
    function Total(): nat {
      |visualizations| + |charts| + |maps| + |texts| + |others|
    }

    function Bucket(k: ItemKind): seq<Entry> {
      match k
      case VisualizationItem => visualizations
      case ChartItem => charts
      case MapItem => maps
      case TextItem => texts
      case OtherItem => others
    }
  }

  /** The entry `get_dashboard_item_types` appends for one item, with the
      source's defaults for missing fields. */
  function EntryOf(item: Item): Result<Entry> {
    if item.visualization.Some? then
      var v := item.visualization.value;
      Ok(RefEntry(v.name.GetOr("Visualisation sans nom"), v.kind.GetOr("Non spécifié"), v.id.GetOr("")))
    else if item.chart.Some? then
      var c := item.chart.value;
      Ok(RefEntry(c.name.GetOr("Graphique sans nom"), c.kind.GetOr("Chart"), c.id.GetOr("")))
    else if item.mapRef.Some? then
      var m := item.mapRef.value;
      Ok(MapEntry(m.name.GetOr("Carte sans nom"), m.id.GetOr("")))
    else
      match item.text
      case NoText => Ok(OtherEntry(item.itemType.GetOr("Inconnu")))
      case NullText => Err(NoLenMessage)
      case Text(s) => Ok(TextEntry(TextLabel(s), s))
  }

  function Append(b: Buckets, k: ItemKind, e: Entry): Buckets {
    match k
    case VisualizationItem => b.(visualizations := b.visualizations + [e])
    case ChartItem => b.(charts := b.charts + [e])
    case MapItem => b.(maps := b.maps + [e])
    case TextItem => b.(texts := b.texts + [e])
    case OtherItem => b.(others := b.others + [e])
  }

  /** `get_dashboard_item_types`: one pass over the items, appending each to the
      bucket of its kind; the first null text aborts the pass. */
  function DashboardItemTypes(items: seq<Item>): (r: Result<Buckets>)
    ensures r.Ok? ==> r.value.Total() == |items|
    ensures r.Err? ==> exists i :: 0 <= i < |items| && EntryOf(items[i]).Err?
  {
    if |items| == 0 then Ok(Buckets([], [], [], [], []))
    else
      var last := items[|items| - 1];
      match DashboardItemTypes(items[..|items| - 1])
      case Err(m) => Err(m)
      case Ok(b) =>
        match EntryOf(last)
        case Err(m) => Err(m)
        case Ok(e) => Ok(Append(b, ItemType(last), e))
  }

  /** Reference definition of one bucket: the entries of the items of kind
      `k`, in item order. */
  function Select(items: seq<Item>, k: ItemKind): seq<Entry>
    requires forall i :: 0 <= i < |items| ==> EntryOf(items[i]).Ok?
  {
    if |items| == 0 then []
    else
      var last := items[|items| - 1];
      Select(items[..|items| - 1], k) + (if ItemType(last) == k then [EntryOf(last).value] else [])
  }

  /** Every item lands in exactly the bucket `get_item_type` names, in order,
      and the pass fails exactly when some text item is null. */
  lemma {:induction false} BucketsFollowItemType(items: seq<Item>)
    ensures DashboardItemTypes(items).Ok? <==> forall i :: 0 <= i < |items| ==> EntryOf(items[i]).Ok?
    ensures DashboardItemTypes(items).Ok? ==>
      forall k :: DashboardItemTypes(items).value.Bucket(k) == Select(items, k)
  {
    if |items| > 0 {
      var init, last := items[..|items| - 1], items[|items| - 1];
      BucketsFollowItemType(init);
      assert forall i :: 0 <= i < |init| ==> init[i] == items[i];
      if DashboardItemTypes(items).Ok? {
        var b, e := DashboardItemTypes(init).value, EntryOf(last).value;
        assert DashboardItemTypes(items).value == Append(b, ItemType(last), e);
        forall k ensures DashboardItemTypes(items).value.Bucket(k) == Select(items, k) {
          AppendBucket(b, ItemType(last), e, k);
        }
      }
    }
  }

  lemma AppendBucket(b: Buckets, k: ItemKind, e: Entry, k': ItemKind)
    ensures Append(b, k, e).Bucket(k') == b.Bucket(k') + (if k == k' then [e] else [])
  {
  }

  /** A failed entry only ever comes from a null text item. */
  lemma EntryFailsOnNullText(item: Item)
    ensures EntryOf(item).Err? <==> ItemType(item) == TextItem && item.text == NullText
    ensures EntryOf(item).Err? <==> HasVisualizableData(item).Err?
  {
  }
}
