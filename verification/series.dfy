/** Fetching a visualization's data (main.py: get_visualization_data,
    _parse_visualization_data, _generate_analysis_ready_data). Two endpoints
    are tried in turn; the first that answers 200 with decodable JSON is
    parsed, and otherwise the viewer falls back to generated data whose kind
    is chosen from keywords in the visualization's name. The generated values
    themselves are not modelled, only their category and row count. */
module Series {
  import opened Outcomes
  import opened Strings
  import opened Tables
  import opened Numbers

  /** One entry of `headers`; `None` is an absent key or JSON `null`. */
  datatype Header = Header(name: Option<string>, column: Option<string>)

  /** The payload's `rows` key: absent, `null`, or a list of row lists. */
  datatype RowsField = NoRows | NullRows | RowList(rows: seq<seq<Cell>>)

  /** The payload's `headers` key: absent (read as `[]`), `null`, or a list. */
  datatype HeadersField = NoHeaders | NullHeaders | HeaderList(headers: seq<Header>)

  /** The payload's `data` key: absent, a list of the given length, or another value. */
  datatype DataField = NoData | DataList(length: nat) | OtherData

  /** A decoded JSON object, reduced to the three keys the parser reads. */
  datatype Payload = Payload(rows: RowsField, headers: HeadersField, data: DataField)

  /** The outcome of one request: a non-200 status, a 200 whose body is not
      JSON, a 200 with a JSON object, or an exception from the session. */
  datatype Response = NotOk | BadJson | Json(payload: Payload) | Raised

  /** The generator chosen from the name. */
  datatype Category = EcvDsdm | Vaccination | Malaria | Nutrition | Consultation | Birth | Mortality | Generic

  /** The data frame returned: empty, parsed rows, a table built from a
      `data` list (only its length is kept), or generated data. */
  datatype Frame =
    | NoFrame
    | RowsFrame(table: Table)
    | RecordsFrame(count: nat)
    | GeneratedFrame(category: Category, count: nat)

  /** The `(data, info)` pair the fetch returns. */
  datatype Fetched = Fetched(frame: Frame, info: string)

  // Header naming

  predicate Truthy(s: Option<string>) {
    s.Some? && s.value != ""
  }

  function FallbackName(i: nat): string {
    "Colonne_" + Decimal(i)
  }

  /** The name given to the header at position `i`. */
  function HeaderName(h: Header, i: nat): string {
    if Truthy(h.name) then h.name.value
    else if Truthy(h.column) then h.column.value
    else FallbackName(i)
  }

  /** The loop that appends one name per header, numbering a fallback by
      the number of names collected so far. */
  function ColumnNames(hs: seq<Header>): (r: seq<string>)
    ensures |r| == |hs|
  {
    if |hs| == 0 then []
    else
      var init := ColumnNames(hs[..|hs| - 1]);
      init + [HeaderName(hs[|hs| - 1], |init|)]
  }

  /** One name per header: the header's `name` when non-empty, else its
      `column` when non-empty, else "Colonne_i" for its position i, which
      reads back as i. No name is empty. */
  lemma {:induction false} ColumnNamesResolve(hs: seq<Header>)
    ensures forall i :: 0 <= i < |hs| ==> ColumnNames(hs)[i] != ""
    ensures forall i :: 0 <= i < |hs| && Truthy(hs[i].name) ==> ColumnNames(hs)[i] == hs[i].name.value
    ensures forall i :: 0 <= i < |hs| && !Truthy(hs[i].name) && Truthy(hs[i].column) ==>
      ColumnNames(hs)[i] == hs[i].column.value
    ensures forall i :: 0 <= i < |hs| && !Truthy(hs[i].name) && !Truthy(hs[i].column) ==>
      ColumnNames(hs)[i] == FallbackName(i)
  {
    if |hs| > 0 {
      var init := hs[..|hs| - 1];
      ColumnNamesResolve(init);
      assert forall i :: 0 <= i < |init| ==> init[i] == hs[i];
      assert ColumnNames(hs) == ColumnNames(init) + [HeaderName(hs[|hs| - 1], |init|)];
    }
  }

  /** The position of a fallback name can be read back from it. */
  lemma FallbackNameReadsBack(i: nat)
    ensures StartsWith(FallbackName(i), "Colonne_")
    ensures IsDigits(FallbackName(i)[8..]) && DigitsValue(FallbackName(i)[8..]) == i
  {
    DecimalRoundTrip(i);
    assert FallbackName(i)[8..] == Decimal(i);
  }

  // Parsing

  const NoDataMessage: string := "Aucune donnée disponible"
  const UnknownFormatMessage: string := "Format de données non reconnu"
  /** `str(e)` of the TypeError raised by iterating over `None`. */
  const NotIterableMessage: string := "'NoneType' object is not iterable"

  function ParseError(detail: string): string {
    "Erreur de parsing: " + detail
  }

  /** pandas' complaint when the column list does not match the data's width. */
  function WidthMismatch(passed: nat, width: nat): string {
    Decimal(passed) + " columns passed, passed data had " + Decimal(width) + " columns"
  }

  function RowsMessage(n: nat): string {
    "Données récupérées (" + Decimal(n) + " lignes)"
  }

  function RecordsMessage(n: nat): string {
    "Données au format liste (" + Decimal(n) + " lignes)"
  }

  /** The length of the longest row: the width pandas gives a list of lists. */
  function MaxWidth(rows: seq<seq<Cell>>): (r: nat)
    ensures forall i :: 0 <= i < |rows| ==> |rows[i]| <= r
    ensures |rows| > 0 ==> exists i :: 0 <= i < |rows| && |rows[i]| == r
    ensures |rows| == 0 ==> r == 0
  {
    if |rows| == 0 then 0
    else
      var w := MaxWidth(rows[..|rows| - 1]);
      assert forall i :: 0 <= i < |rows| - 1 ==> rows[..|rows| - 1][i] == rows[i];
      if |rows[|rows| - 1]| > w then |rows[|rows| - 1]| else w
  }

  /** A short row is filled with missing cells up to the frame's width. */
  function Pad(row: seq<Cell>, width: nat): (r: seq<Cell>)
    requires |row| <= width
    ensures |r| == width && r[..|row|] == row
    ensures forall j :: |row| <= j < width ==> r[j].None?
  {
    row + seq(width - |row|, _ => None)
  }

  /** `pd.DataFrame(rows, columns=column_names[:len(rows[0])])` for a
      non-empty list of rows, numeric coercion aside. */
  function BuildFrame(rows: seq<seq<Cell>>, names: seq<string>): Fetched
    requires |rows| > 0
  {
    var passed := Min(|names|, |rows[0]|);
    var width := MaxWidth(rows);
    if passed != width then Fetched(NoFrame, ParseError(WidthMismatch(passed, width)))
    else
      var columns := seq(width, j requires 0 <= j < width => Column(names[j], Object));
      var padded := seq(|rows|, i requires 0 <= i < |rows| => Pad(rows[i], width));
      Fetched(RowsFrame(Table(columns, padded)), RowsMessage(|rows|))
  }

  /** `_parse_visualization_data`: `rows` first, then a non-empty `data` list. */
  function Parse(p: Payload): Fetched {
    match p.rows
    case NullRows => Fetched(NoFrame, NoDataMessage)
    case RowList(rows) =>
      if |rows| == 0 then Fetched(NoFrame, NoDataMessage)
      else (
        match p.headers
        case NullHeaders => Fetched(NoFrame, ParseError(NotIterableMessage))
        case NoHeaders => BuildFrame(rows, [])
        case HeaderList(hs) => BuildFrame(rows, ColumnNames(hs)))
    case NoRows =>
      match p.data
      case DataList(n) =>
        if n > 0 then Fetched(RecordsFrame(n), RecordsMessage(n)) else Fetched(NoFrame, UnknownFormatMessage)
      case _ => Fetched(NoFrame, UnknownFormatMessage)
  }

  /** The header names of a payload, with absent headers read as none. */
  function PayloadNames(p: Payload): seq<string> {
    match p.headers
    case HeaderList(hs) => ColumnNames(hs)
    case _ => []
  }

  /** Non-empty rows with usable headers give a table exactly when the
      truncated name list is as wide as the widest row; the table then has
      one row per input row, every row keeps its cells in order and is padded
      with missing cells, and the columns carry the resolved names. */
  lemma ParseRows(p: Payload)
    requires p.rows.RowList? && |p.rows.rows| > 0 && !p.headers.NullHeaders?
    ensures var rows, names := p.rows.rows, PayloadNames(p);
      var passed, width := Min(|names|, |rows[0]|), MaxWidth(rows);
      var r := Parse(p);
      (r.frame.RowsFrame? <==> passed == width)
      && (passed != width ==> r == Fetched(NoFrame, ParseError(WidthMismatch(passed, width))))
      && (r.frame.RowsFrame? ==>
            var t := r.frame.table;
            WellFormed(t) && |t.columns| == width && |t.rows| == |rows|
            && (forall j :: 0 <= j < width ==> t.columns[j].name == names[j])
            && (forall i :: 0 <= i < |rows| ==> t.rows[i][..|rows[i]|] == rows[i])
            && r.info == RowsMessage(|rows|))
  {
  }

  /** Which message the parser gives for which shape of payload. */
  lemma ParseShapes(p: Payload)
    ensures Parse(p).info == NoDataMessage <==>
      p.rows.NullRows? || (p.rows.RowList? && |p.rows.rows| == 0)
    ensures Parse(p).frame.RecordsFrame? <==> p.rows.NoRows? && p.data.DataList? && p.data.length > 0
    ensures Parse(p).frame.RecordsFrame? ==> Parse(p).info == RecordsMessage(p.data.length)
    ensures Parse(p).info == UnknownFormatMessage <==>
      p.rows.NoRows? && !(p.data.DataList? && p.data.length > 0)
    ensures p.rows.RowList? && |p.rows.rows| > 0 && p.headers.NullHeaders? ==>
      Parse(p) == Fetched(NoFrame, ParseError(NotIterableMessage))
    ensures !Parse(p).frame.GeneratedFrame?
  {
    match p.rows
    case NullRows =>
    case NoRows =>
    case RowList(rows) =>
      if |rows| > 0 {
        var r := Parse(p);
        assert r.info != NoDataMessage by {
          if r.frame.RowsFrame? {
            assert r.info[..8] == "Données ";
          } else {
            assert r.info[..7] == "Erreur ";
          }
        }
        assert r.info != UnknownFormatMessage by {
          assert UnknownFormatMessage[0] == 'F';
          if r.frame.RowsFrame? {
            assert r.info[0] == 'D';
          } else {
            assert r.info[0] == 'E';
          }
        }
      }
  }

  // The generated-data fallback

  const EcvDsdmKeywords: seq<string> := ["ecv", "dsdm", "performance", "indicateur"]
  const VaccinationKeywords: seq<string> := ["vaccin", "immunisation", "vax"]
  const MalariaKeywords: seq<string> := ["paludisme", "malaria"]
  const NutritionKeywords: seq<string> := ["nutrition", "malnutrition"]
  const ConsultationKeywords: seq<string> := ["consultation", "visite"]
  const BirthKeywords: seq<string> := ["naissance", "accouchement"]
  const MortalityKeywords: seq<string> := ["mortalité", "décès"]

  /** The `if`/`elif` chain of `_generate_analysis_ready_data`. */
  function CategoryOf(name: string): Category {
    var s := Lower(name);
    if ContainsAny(s, EcvDsdmKeywords) then EcvDsdm
    else if ContainsAny(s, VaccinationKeywords) then Vaccination
    else if ContainsAny(s, MalariaKeywords) then Malaria
    else if ContainsAny(s, NutritionKeywords) then Nutrition
    else if ContainsAny(s, ConsultationKeywords) then Consultation
    else if ContainsAny(s, BirthKeywords) then Birth
    else if ContainsAny(s, MortalityKeywords) then Mortality
    else Generic
  }

  /** The keyword sets with their categories, in the order they are tried. */
  const CategoryRules: seq<(seq<string>, Category)> := [
    (EcvDsdmKeywords, EcvDsdm), (VaccinationKeywords, Vaccination), (MalariaKeywords, Malaria),
    (NutritionKeywords, Nutrition), (ConsultationKeywords, Consultation), (BirthKeywords, Birth),
    (MortalityKeywords, Mortality)]

  /** Reference reading: the category of the first rule with a keyword in `s`. */
  function FirstMatch(rules: seq<(seq<string>, Category)>, s: string): Category {
    if |rules| == 0 then Generic
    else if ContainsAny(s, rules[0].0) then rules[0].1
    else FirstMatch(rules[1..], s)
  }

  /** The first rule that matches decides; no match means generic. */
  lemma {:induction false} FirstMatchIsFirst(rules: seq<(seq<string>, Category)>, s: string)
    requires forall k :: 0 <= k < |rules| ==> rules[k].1 != Generic
    ensures FirstMatch(rules, s) == Generic <==> forall k :: 0 <= k < |rules| ==> !ContainsAny(s, rules[k].0)
    ensures FirstMatch(rules, s) != Generic ==>
      exists k :: 0 <= k < |rules| && ContainsAny(s, rules[k].0) && FirstMatch(rules, s) == rules[k].1
        && forall m :: 0 <= m < k ==> !ContainsAny(s, rules[m].0)
  {
    if |rules| > 0 && !ContainsAny(s, rules[0].0) {
      var rest := rules[1..];
      assert forall k :: 1 <= k < |rules| ==> rules[k] == rest[k - 1];
      FirstMatchIsFirst(rest, s);
      if FirstMatch(rest, s) != Generic {
        var k :| 0 <= k < |rest| && ContainsAny(s, rest[k].0) && FirstMatch(rest, s) == rest[k].1
          && forall m :: 0 <= m < k ==> !ContainsAny(s, rest[m].0);
        assert forall m :: 0 <= m < k + 1 ==> !ContainsAny(s, rules[m].0) by {
          forall m | 0 <= m < k + 1 ensures !ContainsAny(s, rules[m].0) {
            if m > 0 {
              assert rules[m] == rest[m - 1];
            }
          }
        }
        assert rules[k + 1] == rest[k];
      }
    }
  }

  /** The chain picks the first keyword set, in the order ecv/dsdm,
      vaccination, malaria, nutrition, consultation, birth, mortality, with a
      keyword in the lower-cased name, and the generic generator when none. */
  lemma CategoryIsFirstMatch(name: string)
    ensures CategoryOf(name) == FirstMatch(CategoryRules, Lower(name))
    ensures CategoryOf(name) == Generic <==>
      forall k :: 0 <= k < |CategoryRules| ==> !ContainsAny(Lower(name), CategoryRules[k].0)
  {
    var s := Lower(name);
    var r := CategoryRules;
    var r1 := r[1..];
    var r2 := r1[1..];
    var r3 := r2[1..];
    var r4 := r3[1..];
    var r5 := r4[1..];
    var r6 := r5[1..];
    assert r6 == [(MortalityKeywords, Mortality)];
    assert FirstMatch(r6[1..], s) == Generic;
    assert r5[0] == (BirthKeywords, Birth) && r4[0] == (ConsultationKeywords, Consultation);
    assert r3[0] == (NutritionKeywords, Nutrition) && r2[0] == (MalariaKeywords, Malaria);
    assert r1[0] == (VaccinationKeywords, Vaccination) && r[0] == (EcvDsdmKeywords, EcvDsdm);
    assert FirstMatch(r6, s) == if ContainsAny(s, MortalityKeywords) then Mortality else Generic;
    assert FirstMatch(r5, s) == if ContainsAny(s, BirthKeywords) then Birth else FirstMatch(r6, s);
    assert FirstMatch(r4, s) == if ContainsAny(s, ConsultationKeywords) then Consultation else FirstMatch(r5, s);
    assert FirstMatch(r3, s) == if ContainsAny(s, NutritionKeywords) then Nutrition else FirstMatch(r4, s);
    assert FirstMatch(r2, s) == if ContainsAny(s, MalariaKeywords) then Malaria else FirstMatch(r3, s);
    assert FirstMatch(r1, s) == if ContainsAny(s, VaccinationKeywords) then Vaccination else FirstMatch(r2, s);
    assert FirstMatch(r, s) == if ContainsAny(s, EcvDsdmKeywords) then EcvDsdm else FirstMatch(r1, s);
    FirstMatchIsFirst(r, s);
  }

  /** Rows the generators build: regions × quarters × indicators,
      regions × months × vaccines × age groups, districts × weeks × age
      groups, and the fixed 100 rows of the generic generator. */
  const EcvDsdmRows: nat := 10 * 4 * 8
  const VaccinationRows: nat := 10 * 6 * 8 * 3
  const MalariaRows: nat := 15 * 26 * 3
  const GenericRows: nat := 100

  const GenerationErrorPrefix: string := "Erreur génération données: "

  /** The AttributeError for a generator the class does not define. */
  function MissingGenerator(suffix: string): string {
    GenerationErrorPrefix + "'DHIS2Client' object has no attribute '_generate_" + suffix + "_data'"
  }

  /** The row counts the generators would report. */
  function GeneratedInfo(c: Category): string {
    match c
    case EcvDsdm => "Données ECV/DSDM prêtes pour analyse (" + Decimal(EcvDsdmRows) + " lignes)"
    case Vaccination => "Données vaccinales pour analyses (" + Decimal(VaccinationRows) + " lignes)"
    case Malaria => "Données paludisme pour analyses (" + Decimal(MalariaRows) + " lignes)"
    case _ => "Données multi-dimensionnelles pour analyses (" + Decimal(GenericRows) + " lignes)"
  }

  // The malaria generator

  /** The two random draws of one malaria row that decide whether the row can
      be built: `confirmed` from `randint(10, 200)`, and `severe`, the integer
      part of `confirmed * uniform(0.05, 0.15)`. */
  datatype MalariaDraw = MalariaDraw(confirmed: int, severe: int)

  /** A draw numpy can produce: 10 <= confirmed < 200 and
      confirmed * 0.05 - 1 < severe < confirmed * 0.15. */
  predicate Feasible(d: MalariaDraw) {
    10 <= d.confirmed < 200
    && 5 * d.confirmed - 100 < 100 * d.severe < 15 * d.confirmed
  }

  /** `str(e)` of the ValueError numpy's bounds check raises for
      `randint(0, high)` with `high <= 0`. */
  const EmptyRangeMessage: string := "high <= 0"

  /** The exclusive upper bound of the deaths draw as written,
      `int(severe * 0.1)`; for the non-negative `severe` of a feasible draw
      this is the integer part of severe / 10. */
  function WrittenDeathsBound(d: MalariaDraw): int {
    if d.severe >= 0 then d.severe / 10 else -((-d.severe) / 10)
  }

  /** The evidently intended bound: deaths from 0 up to a tenth of the severe
      cases, inclusive, so the range is never empty. */
  function IntendedDeathsBound(d: MalariaDraw): int {
    WrittenDeathsBound(d) + 1
  }

  /** The generator loop over its rows' draws, with a given deaths bound:
      `randint(0, bound)` raises as soon as one bound is not positive, and
      the handler turns that into an empty frame and the error message;
      otherwise all rows are built. */
  function MalariaRun(draws: seq<MalariaDraw>, bound: MalariaDraw -> int): Fetched {
    if |draws| == 0 then Fetched(GeneratedFrame(Malaria, MalariaRows), GeneratedInfo(Malaria))
    else if bound(draws[0]) <= 0 then Fetched(NoFrame, GenerationErrorPrefix + EmptyRangeMessage)
    else MalariaRun(draws[1..], bound)
  }

  /** `_generate_malaria_data` as written, over the draws of its 1170 rows. */
  function MalariaAsWritten(draws: seq<MalariaDraw>): Fetched
    requires |draws| == MalariaRows
  {
    MalariaRun(draws, WrittenDeathsBound)
  }

  /** The malaria generator with the intended deaths range. */
  function MalariaIntended(draws: seq<MalariaDraw>): Fetched
    requires |draws| == MalariaRows
  {
    MalariaRun(draws, IntendedDeathsBound)
  }

  /** The loop fails exactly when some row's bound is not positive. */
  lemma {:induction false} MalariaRunFails(draws: seq<MalariaDraw>, bound: MalariaDraw -> int)
    ensures MalariaRun(draws, bound).frame.NoFrame? <==> exists i :: 0 <= i < |draws| && bound(draws[i]) <= 0
    ensures MalariaRun(draws, bound).frame.NoFrame? ==>
      MalariaRun(draws, bound) == Fetched(NoFrame, GenerationErrorPrefix + EmptyRangeMessage)
    ensures !MalariaRun(draws, bound).frame.NoFrame? ==>
      MalariaRun(draws, bound) == Fetched(GeneratedFrame(Malaria, MalariaRows), GeneratedInfo(Malaria))
  {
    if |draws| > 0 {
      MalariaRunFails(draws[1..], bound);
      if exists i :: 1 <= i < |draws| && bound(draws[i]) <= 0 {
        var i :| 1 <= i < |draws| && bound(draws[i]) <= 0;
        assert draws[1..][i - 1] == draws[i];
      }
      if exists i :: 0 <= i < |draws[1..]| && bound(draws[1..][i]) <= 0 {
        var i :| 0 <= i < |draws[1..]| && bound(draws[1..][i]) <= 0;
        assert draws[1..][i] == draws[i + 1];
      }
    }
  }

  /** A row with at most 66 confirmed cases has at most 9 severe ones, so its
      deaths range `randint(0, 0)` is empty. */
  lemma SmallDrawEmptiesRange(d: MalariaDraw)
    requires Feasible(d) && d.confirmed <= 66
    ensures 0 <= d.severe <= 9
    ensures WrittenDeathsBound(d) == 0
  {
  }

  /** As written, the generator fails with numpy's message as soon as one of
      its 1170 rows draws at most 66 confirmed cases (57 of the 190 values
      `randint(10, 200)` can return), and it builds its rows only when every
      row draws at least 10 severe cases. */
  lemma MalariaAsWrittenFails(draws: seq<MalariaDraw>)
    requires |draws| == MalariaRows
    requires forall i :: 0 <= i < |draws| ==> Feasible(draws[i])
    ensures MalariaAsWritten(draws).frame.NoFrame? <==> exists i :: 0 <= i < |draws| && draws[i].severe < 10
    ensures (exists i :: 0 <= i < |draws| && draws[i].confirmed <= 66) ==>
      MalariaAsWritten(draws) == Fetched(NoFrame, GenerationErrorPrefix + EmptyRangeMessage)
  {
    MalariaRunFails(draws, WrittenDeathsBound);
    forall i | 0 <= i < |draws| ensures WrittenDeathsBound(draws[i]) <= 0 <==> draws[i].severe < 10 {
    }
    if exists i :: 0 <= i < |draws| && draws[i].confirmed <= 66 {
      var i :| 0 <= i < |draws| && draws[i].confirmed <= 66;
      SmallDrawEmptiesRange(draws[i]);
    }
  }

  /** A concrete run: 1170 rows that each draw 10 confirmed and 1 severe case. */
  lemma MalariaCounterexample()
    ensures MalariaAsWritten(seq(MalariaRows, _ => MalariaDraw(10, 1))).info == GenerationErrorPrefix + EmptyRangeMessage
  {
    var draws := seq(MalariaRows, _ => MalariaDraw(10, 1));
    assert Feasible(draws[0]);
    MalariaAsWrittenFails(draws);
  }

  /** With the intended range the generator builds its 1170 rows for every
      feasible draw. */
  lemma MalariaIntendedBuilds(draws: seq<MalariaDraw>)
    requires |draws| == MalariaRows
    requires forall i :: 0 <= i < |draws| ==> Feasible(draws[i])
    ensures MalariaIntended(draws) == Fetched(GeneratedFrame(Malaria, MalariaRows), GeneratedInfo(Malaria))
  {
    MalariaRunFails(draws, IntendedDeathsBound);
    forall i | 0 <= i < |draws| ensures IntendedDeathsBound(draws[i]) > 0 {
    }
  }

  /** `_generate_analysis_ready_data`. The nutrition, consultation, birth
      and mortality generators are called but never defined, so those
      categories end in the handler with an empty frame. The malaria
      generator is taken as it behaves: its run fails unless all 1170 rows
      draw at least 10 severe cases (`MalariaAsWrittenFails`). */
  function Generate(name: string): (r: Fetched)
    ensures r.frame.GeneratedFrame? ==> r.frame.category == CategoryOf(name)
    ensures r.frame.GeneratedFrame? <==> CategoryOf(name) in {EcvDsdm, Vaccination, Generic}
    ensures CategoryOf(name) == Malaria ==> r == Fetched(NoFrame, GenerationErrorPrefix + EmptyRangeMessage)
  {
    match CategoryOf(name)
    case EcvDsdm => Fetched(GeneratedFrame(EcvDsdm, EcvDsdmRows), GeneratedInfo(EcvDsdm))
    case Vaccination => Fetched(GeneratedFrame(Vaccination, VaccinationRows), GeneratedInfo(Vaccination))
    case Malaria => Fetched(NoFrame, GenerationErrorPrefix + EmptyRangeMessage)
    case Nutrition => Fetched(NoFrame, MissingGenerator("nutrition"))
    case Consultation => Fetched(NoFrame, MissingGenerator("consultation"))
    case Birth => Fetched(NoFrame, MissingGenerator("birth"))
    case Mortality => Fetched(NoFrame, MissingGenerator("mortality"))
    case Generic => Fetched(GeneratedFrame(Generic, GenericRows), GeneratedInfo(Generic))
  }

  /** Every generator the fallback reaches either builds its category's rows
      or ends in the handler's message; the malaria branch is the written
      generator's outcome on any run with a small draw. */
  lemma GenerateOutcome(name: string, draws: seq<MalariaDraw>)
    requires |draws| == MalariaRows
    requires forall i :: 0 <= i < |draws| ==> Feasible(draws[i])
    requires exists i :: 0 <= i < |draws| && draws[i].confirmed <= 66
    ensures CategoryOf(name) == Malaria ==> Generate(name) == MalariaAsWritten(draws)
    ensures Generate(name).frame.NoFrame? ==> StartsWith(Generate(name).info, GenerationErrorPrefix)
  {
    MalariaAsWrittenFails(draws);
  }

  /** The outcome came from the generator fallback: generated rows, or the
      generator's own error. */
  predicate FromGenerator(r: Fetched) {
    r.frame.GeneratedFrame? || StartsWith(r.info, GenerationErrorPrefix)
  }

  // The two-endpoint chain

  /** `get_visualization_data`: the `/data` endpoint first, then `/data.json`
      (only reached after a non-200 or undecodable reply), then generated
      data. An exception from either request also goes to generated data. */
  function GetVisualizationData(first: Response, second: Response, name: string): Fetched {
    match first
    case Json(p) => Parse(p)
    case Raised => Generate(name)
    case _ =>
      match second
      case Json(p) => Parse(p)
      case _ => Generate(name)
  }

  lemma GeneratorPrefixIsNotParse(p: Payload)
    ensures !FromGenerator(Parse(p))
  {
    ParseShapes(p);
    var s := Parse(p).info;
    var q := GenerationErrorPrefix;
    if |q| <= |s| {
      assert s[..|q|] != q by {
        if s[0] == 'D' || s[0] == 'A' || s[0] == 'F' {
          assert q[0] == 'E';
        } else {
          assert s[7] == 'd' && q[7] == 'g';
        }
      }
    }
  }

  /** The first endpoint answering 200 with JSON is final, even when its
      payload parses to no rows; generated data is used exactly when no
      endpoint answered so before an exception or the end of the chain. */
  lemma ChainOutcome(first: Response, second: Response, name: string)
    ensures first.Json? ==> GetVisualizationData(first, second, name) == Parse(first.payload)
    ensures (first.NotOk? || first.BadJson?) && second.Json? ==>
      GetVisualizationData(first, second, name) == Parse(second.payload)
    ensures FromGenerator(GetVisualizationData(first, second, name)) <==>
      !(first.Json? || ((first.NotOk? || first.BadJson?) && second.Json?))
    ensures FromGenerator(GetVisualizationData(first, second, name)) ==>
      GetVisualizationData(first, second, name) == Generate(name)
  {
    var r := GetVisualizationData(first, second, name);
    if first.Json? {
      GeneratorPrefixIsNotParse(first.payload);
    } else if (first.NotOk? || first.BadJson?) && second.Json? {
      GeneratorPrefixIsNotParse(second.payload);
    } else {
      assert r == Generate(name);
      if !r.frame.GeneratedFrame? {
        assert r.info[..|GenerationErrorPrefix|] == GenerationErrorPrefix;
      }
    }
  }
}
