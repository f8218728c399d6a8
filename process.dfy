/** The field-extraction pass (kijiji_v2/process.py): one stored listing page becomes one
    `ApartmentDetails` record, and a batch keeps the records whose extraction did not raise. */
module Extract {
  import opened Results
  import opened Text
  import opened Html

  const RoomsLabel: string := "Pièces"
  const BathroomsLabel: string := "Salles de bain"
  /** The characters `read_price` keeps: "0123456789,". */
  predicate IsPriceChar(c: char)
  {
    IsDigit(c) || c == ','
  }
  const HalfGlyph: char := '½'

  /** A timestamp as the date libraries return it. */
  datatype DateTime = DateTime(year: int, month: int, day: int, hour: int, minute: int, second: int)

  /** The library calls the pass depends on; `None` stands for the call raising.
      `parseHtml` is `lxml.html.fromstring`, `isoParse` is `dateutil.parser.isoparse`, and
      `legacyParse` is `datetime.strptime(_, "%d %B %Y %H:%M")` under the fr_FR locale. */
  datatype Parsers = Parsers(
    parseHtml: string -> Option<Tree>,
    isoParse: string -> Option<DateTime>,
    legacyParse: string -> Option<DateTime>)

  /** Why extracting one record raised. */
  datatype Failure =
    | Unparseable                     // lxml could not build a tree
    | NoHeadline                      // `tree.cssselect("[class*=title]")[0]` raised IndexError
    | BadDate(raw: Option<string>)    // the chosen date path could not be parsed
    | BadFraction(part: string)       // `fractions.Fraction(part)` raised

  /** The `ApartmentDetails` record. Rooms are exact rationals; bathrooms are counted in halves. */
  datatype ApartmentDetails = ApartmentDetails(
    apartmentScrapeId: int,
    headline: string,
    description: Option<string>,
    datePosted: Option<DateTime>,
    price: Option<nat>,
    rawAddress: Option<string>,
    numRooms: Option<real>,
    numBathroomHalves: Option<nat>)

  // ---------------------------------------------------------------------------------------
  // get_room_element
  // ---------------------------------------------------------------------------------------

  /** The index of the first element whose text contains `name`. */
  function FirstWithText(els: seq<Element>, name: string): (r: Option<nat>)
    ensures r.None? <==> forall k | 0 <= k < |els| :: !Contains(els[k].text, name)
    ensures r.Some? ==> r.value < |els| && Contains(els[r.value].text, name)
    ensures r.Some? ==> forall k | 0 <= k < r.value :: !Contains(els[k].text, name)
  {
    if els == [] then None
    else if Contains(els[0].text, name) then Some(0)
    else
      match FirstWithText(els[1..], name)
      case None => None
      case Some(k) => Some(k + 1)
  }

  /** `split()[1:]`. */
  function DropFirst(words: seq<string>): seq<string>
  {
    if words == [] then [] else words[1..]
  }

  /** `get_room_element`: among the label elements, the first whose text contains `name`;
      its whitespace-separated words after the first, joined by single spaces. */
  function GetRoomElement(t: Tree, name: string): (r: Option<string>)
    ensures r.None? <==> forall e | e in Matches(t, LabelValue) :: !Contains(e.text, name)
    ensures r.Some? ==>
      var k := FirstWithText(Matches(t, LabelValue), name).value;
      && r.value == Join(" ", DropFirst(Split(Matches(t, LabelValue)[k].text)))
      && Split(r.value) == DropFirst(Split(Matches(t, LabelValue)[k].text))
      && (r.value == [] <==> |Split(Matches(t, LabelValue)[k].text)| <= 1)
  {
    var els := Matches(t, LabelValue);
    assert forall e | e in els :: exists k :: 0 <= k < |els| && els[k] == e;
    match FirstWithText(els, name)
    case None => None
    case Some(k) =>
      var rest := DropFirst(Split(els[k].text));
      SplitJoin(rest);
      assert |rest| >= 2 ==> |Join(" ", rest)| >= |rest[0]| > 0;
      Some(Join(" ", rest))
  }

  // ---------------------------------------------------------------------------------------
  // read_price
  // ---------------------------------------------------------------------------------------

  /** `"".join(c for c in s if c in "0123456789,")`: keeps exactly the digits and commas. */
  function KeepPriceChars(s: string): (r: string)
    ensures forall k | 0 <= k < |r| :: IsPriceChar(r[k])
    ensures NoDigit(r) <==> NoDigit(s)
    ensures |r| <= |s|
  {
    if s == [] then []
    else
      var rest := KeepPriceChars(s[1..]);
      NoDigitConcat([s[0]], s[1..]);
      assert [s[0]] + s[1..] == s;
      if IsPriceChar(s[0]) then
        NoDigitConcat([s[0]], rest);
        [s[0]] + rest
      else
        assert !IsDigit(s[0]);
        rest
  }

  /** The optional `(?:,(\d+))` group after the dollars: the digits after an immediately
      following comma, read as an integer (not scaled: ",5" is 5), or 0. */
  function Cents(after: string): (c: nat)
  {
    if |after| >= 2 && after[0] == ',' && IsDigit(after[1]) then DecimalValue(DigitRun(after[1..])) else 0
  }

  /** The price of a price element's text, in cents; `None` when the text has no digit. */
  function PriceOfText(raw: string): (r: Option<nat>)
    ensures r.None? <==> NoDigit(raw)
  {
    PriceOfKept(KeepPriceChars(raw))
  }

  /** The price read from the digits and commas the filter kept. */
  function PriceOfKept(kept: string): (r: Option<nat>)
    ensures r.None? <==> NoDigit(kept)
  {
    match SearchNumber(kept)
    case None => None
    case Some(m) => Some(DecimalValue(m.digits) * 100 + Cents(m.after))
  }

  /** `read_price`. */
  function ReadPrice(t: Tree): (r: Option<nat>)
    ensures Select(t, CurrentPrice).None? ==> r.None?
    ensures Select(t, CurrentPrice).Some? ==> r == PriceOfText(Select(t, CurrentPrice).value.text)
  {
    match Select(t, CurrentPrice)
    case None => None
    case Some(e) => PriceOfText(e.text)
  }

  // ---------------------------------------------------------------------------------------
  // read_num_bathrooms
  // ---------------------------------------------------------------------------------------

  /** `(\d+)(,5)?` applied to the bathroom text, in halves: twice the leftmost integer, plus one
      when ",5" immediately follows it; `None` when there is no digit. */
  function BathroomHalves(raw: string): (r: Option<nat>)
    ensures r.None? <==> NoDigit(raw)
  {
    match SearchNumber(raw)
    case None => None
    case Some(m) => Some(2 * DecimalValue(m.digits) + (if ",5" <= m.after then 1 else 0))
  }

  /** `read_num_bathrooms`: `None` for a missing or empty label text or one without a digit. */
  function ReadNumBathrooms(t: Tree): (r: Option<nat>)
    ensures GetRoomElement(t, BathroomsLabel).None? ==> r.None?
    ensures GetRoomElement(t, BathroomsLabel) == Some([]) ==> r.None?
    ensures GetRoomElement(t, BathroomsLabel).Some? && GetRoomElement(t, BathroomsLabel).value != [] ==>
      r == BathroomHalves(GetRoomElement(t, BathroomsLabel).value)
  {
    match GetRoomElement(t, BathroomsLabel)
    case None => None
    case Some(raw) => if raw == [] then None else BathroomHalves(raw)
  }

  // ---------------------------------------------------------------------------------------
  // read_num_rooms
  // ---------------------------------------------------------------------------------------

  /** 10 to the power `n`. */
  function Pow10(n: nat): (p: nat)
    ensures p >= 1
  {
    if n == 0 then 1 else 10 * Pow10(n - 1)
  }

  /** `fractions.Fraction(s)` for an unsigned numeral: digits, digits "/" digits (a zero
      denominator raises), or a decimal with at least one digit around the point. */
  function UnsignedFraction(s: string): Option<real>
  {
    var n := DigitRun(s);
    var rest := s[|n|..];
    if rest == [] then
      if n == [] then None else Some(DecimalValue(n) as real)
    else if rest[0] == '/' then
      var d := rest[1..];
      if n != [] && d != [] && AllDigits(d) && DecimalValue(d) != 0
      then Some(Ratio(DecimalValue(n), DecimalValue(d)))
      else None
    else if rest[0] == '.' then
      var f := rest[1..];
      if AllDigits(f) && (n != [] || f != [])
      then Some(PointValue(DecimalValue(n), f))
      else None
    else None
  }

  /** The exact value of the fraction `n/d`. */
  function Ratio(n: nat, d: nat): real
    requires d != 0
  {
    n as real / d as real
  }

  /** The exact value of the decimal numeral `whole.frac`. */
  function PointValue(whole: nat, frac: string): real
    requires AllDigits(frac)
  {
    whole as real + DecimalValue(frac) as real / Pow10(|frac|) as real
  }

  /** `fractions.Fraction(s)`: an optional sign and an unsigned numeral; anything else raises. */
  function ParseFraction(s: string): (r: Result<real, Failure>)
    ensures r.Err? ==> r.error == BadFraction(s)
    ensures s != [] && AllDigits(s) ==> r == Ok(DecimalValue(s) as real)
  {
    assert s != [] && AllDigits(s) ==> DigitRun(s) == s && s[0] != '-' && s[0] != '+';
    var negative := s != [] && s[0] == '-';
    var body := if s != [] && (s[0] == '-' || s[0] == '+') then s[1..] else s;
    match UnsignedFraction(body)
    case None => Err(BadFraction(s))
    case Some(v) => Ok(if negative then -v else v)
  }

  /** `sum(Fraction(part) for part in parts)`: the exact sum, or the first part that raises. */
  function SumFractions(parts: seq<string>): Result<real, Failure>
  {
    if parts == [] then Ok(0.0)
    else
      match ParseFraction(parts[0])
      case Err(e) => Err(e)
      case Ok(v) =>
        match SumFractions(parts[1..])
        case Err(e) => Err(e)
        case Ok(w) => Ok(v + w)
  }

  /** The sum succeeds exactly when every part is a fraction, and otherwise fails on the first
      part that is not. */
  lemma {:induction false} SumFractionsSpec(parts: seq<string>)
    ensures SumFractions(parts).Ok? <==> forall k | 0 <= k < |parts| :: ParseFraction(parts[k]).Ok?
    ensures SumFractions(parts).Err? ==>
      exists k | 0 <= k < |parts| :: FirstBadPart(parts, k) && SumFractions(parts).error == BadFraction(parts[k])
  {
    if parts != [] && ParseFraction(parts[0]).Ok? {
      SumFractionsSpec(parts[1..]);
      match SumFractions(parts[1..])
      case Err(e) =>
        var k :| 0 <= k < |parts[1..]| && FirstBadPart(parts[1..], k) && e == BadFraction(parts[1..][k]);
        FirstBadPartCons(parts, k);
        assert parts[1..][k] == parts[k + 1];
      case Ok(_) =>
        forall k | 0 <= k < |parts| ensures ParseFraction(parts[k]).Ok? {
          if k > 0 {
            assert parts[k] == parts[1..][k - 1];
          }
        }
    } else if parts != [] {
      assert FirstBadPart(parts, 0);
    }
  }

  /** Part `k` is the first of `parts` that `Fraction` rejects. */
  predicate FirstBadPart(parts: seq<string>, k: nat)
  {
    && k < |parts|
    && ParseFraction(parts[k]).Err?
    && forall j | 0 <= j < k :: ParseFraction(parts[j]).Ok?
  }

  /** A first bad part of the tail, behind a head that parses, is the first bad part. */
  lemma FirstBadPartCons(parts: seq<string>, k: nat)
    requires parts != [] && ParseFraction(parts[0]).Ok? && FirstBadPart(parts[1..], k)
    ensures FirstBadPart(parts, k + 1)
  {
    forall j | 0 <= j < k + 1
      ensures ParseFraction(parts[j]).Ok?
    {
      if j > 0 {
        assert parts[j] == parts[1..][j - 1];
      }
    }
  }

  /** `parts[:2]`. */
  function TakeTwo(parts: seq<string>): (r: seq<string>)
    ensures r <= parts && |r| == if |parts| < 2 then |parts| else 2
  {
    if |parts| <= 2 then parts else parts[..2]
  }

  /** The rooms text after "½" is replaced by "1/2", split on single spaces, and the first two
      parts summed as exact fractions. */
  function RoomsOfText(raw: string): Result<real, Failure>
  {
    SumFractions(TakeTwo(SplitOn(Replace(raw, HalfGlyph, "1/2"), ' ')))
  }

  /** `read_num_rooms`: `Ok(None)` for a missing or empty label text; an `Err` is the exception
      that makes `run` skip the record. */
  function ReadNumRooms(t: Tree): (r: Result<Option<real>, Failure>)
    ensures GetRoomElement(t, RoomsLabel).None? ==> r == Ok(None)
    ensures GetRoomElement(t, RoomsLabel) == Some([]) ==> r == Ok(None)
    ensures GetRoomElement(t, RoomsLabel).Some? && GetRoomElement(t, RoomsLabel).value != [] ==>
      var sum := RoomsOfText(GetRoomElement(t, RoomsLabel).value);
      && (r.Ok? <==> sum.Ok?)
      && (r.Ok? ==> r.value == Some(sum.value))
      && (r.Err? ==> r.error == sum.error)
  {
    match GetRoomElement(t, RoomsLabel)
    case None => Ok(None)
    case Some(raw) =>
      if raw == [] then Ok(None)
      else
        match RoomsOfText(raw)
        case Err(e) => Err(e)
        case Ok(v) => Ok(Some(v))
  }

  // ---------------------------------------------------------------------------------------
  // read_raw_address, read_date_posted, read_description, read_headline
  // ---------------------------------------------------------------------------------------

  /** Removes one leading ", " if there is one. */
  function DropLeadingCommaSpace(s: string): (r: string)
    ensures ", " <= s ==> s == ", " + r
    ensures !(", " <= s) ==> r == s
  {
    if ", " <= s then s[2..] else s
  }

  /** `read_raw_address`: `None` when the address element is missing or its text is empty;
      otherwise the text without one leading ", " and without surrounding whitespace. */
  function ReadRawAddress(t: Tree): (r: Option<string>)
    ensures r.None? <==> Select(t, Address).None? || Select(t, Address).value.text == []
    ensures r.Some? ==> r.value == [] || (!IsSpace(r.value[0]) && !IsSpace(r.value[|r.value| - 1]))
  {
    match NewSelector(t, Address).Text()
    case None => None
    case Some(raw) => if raw == [] then None else Some(Strip(DropLeadingCommaSpace(raw)))
  }

  /** Which of the two date paths `read_date_posted` takes. */
  datatype DatePath = ModernTime | LegacyTitle | NoDate

  function DatePathOf(t: Tree): (p: DatePath)
    ensures p == ModernTime <==> Select(t, DatePostedTime).Some?
    ensures p == LegacyTitle <==> Select(t, DatePostedTime).None? && Select(t, DatePostedTitle).Some?
  {
    if Select(t, DatePostedTime).Some? then ModernTime
    else if Select(t, DatePostedTitle).Some? then LegacyTitle
    else NoDate
  }

  /** Parses an attribute value with `parse`; a missing attribute or a value `parse` rejects
      raises. */
  function ParseDateAttr(parse: string -> Option<DateTime>, raw: Option<string>): (r: Result<Option<DateTime>, Failure>)
    ensures r.Ok? ==> r.value.Some? && raw.Some? && parse(raw.value) == r.value
    ensures r.Err? <==> raw.None? || parse(raw.value).None?
  {
    match raw
    case None => Err(BadDate(None))
    case Some(s) =>
      match parse(s)
      case None => Err(BadDate(raw))
      case Some(d) => Ok(Some(d))
  }

  /** `read_date_posted`: the `datetime` attribute of the modern `time` element whenever that
      element exists; the legacy `title` attribute only when it does not; `None` when neither
      element exists. */
  function ReadDatePosted(t: Tree, p: Parsers): (r: Result<Option<DateTime>, Failure>)
    ensures DatePathOf(t) == NoDate ==> r == Ok(None)
    ensures DatePathOf(t) == ModernTime ==>
      r == ParseDateAttr(p.isoParse, Get(Select(t, DatePostedTime).value, "datetime"))
    ensures DatePathOf(t) == LegacyTitle ==>
      r == ParseDateAttr(p.legacyParse, Get(Select(t, DatePostedTitle).value, "title"))
  {
    match Select(t, DatePostedTime)
    case Some(e) => ParseDateAttr(p.isoParse, Get(e, "datetime"))
    case None =>
      match Select(t, DatePostedTitle)
      case Some(e) => ParseDateAttr(p.legacyParse, Get(e, "title"))
      case None => Ok(None)
  }

  /** `read_description`: the serialised markup of the first description container. */
  function ReadDescription(t: Tree): (r: Option<string>)
    ensures r.None? <==> Matches(t, Description) == []
    ensures r.Some? ==> r.value == Matches(t, Description)[0].markup
  {
    match Select(t, Description)
    case None => None
    case Some(e) => Some(e.markup)
  }

  /** `read_headline`: the text of the first title element; with none it raises. */
  function ReadHeadline(t: Tree): (r: Result<string, Failure>)
    ensures r.Err? <==> Matches(t, Title) == []
    ensures r.Err? ==> r.error == NoHeadline
    ensures r.Ok? ==> r.value == Matches(t, Title)[0].text
  {
    var found := Matches(t, Title);
    if found == [] then Err(NoHeadline) else Ok(found[0].text)
  }

  // ---------------------------------------------------------------------------------------
  // process and run
  // ---------------------------------------------------------------------------------------

  /** A stored raw record as `run` reads it. */
  datatype Row = Row(id: int, url: string, content: string)

  /** `process(row)`: parses the page and runs every extractor in the source's order
      (headline, description, date, price, address, rooms, bathrooms); the first one that raises
      decides the failure. */
  function Process(row: Row, p: Parsers): (r: Result<ApartmentDetails, Failure>)
    ensures p.parseHtml(row.content).None? ==> r == Err(Unparseable)
    ensures p.parseHtml(row.content).Some? ==>
      var t := p.parseHtml(row.content).value;
      && (r.Ok? <==> Matches(t, Title) != [] && ReadDatePosted(t, p).Ok? && ReadNumRooms(t).Ok?)
      && (Matches(t, Title) == [] ==> r == Err(NoHeadline))
    ensures r.Ok? ==>
      var t := p.parseHtml(row.content).value;
      var d := r.value;
      && d.apartmentScrapeId == row.id
      && d.headline == Matches(t, Title)[0].text
      && d.description == ReadDescription(t)
      && d.datePosted == ReadDatePosted(t, p).value
      && d.price == ReadPrice(t)
      && d.rawAddress == ReadRawAddress(t)
      && d.numRooms == ReadNumRooms(t).value
      && d.numBathroomHalves == ReadNumBathrooms(t)
  {
    match p.parseHtml(row.content)
    case None => Err(Unparseable)
    case Some(t) =>
      match ReadHeadline(t)
      case Err(e) => Err(e)
      case Ok(headline) =>
        var description := ReadDescription(t);
        match ReadDatePosted(t, p)
        case Err(e) => Err(e)
        case Ok(date) =>
          var price := ReadPrice(t);
          var address := ReadRawAddress(t);
          match ReadNumRooms(t)
          case Err(e) => Err(e)
          case Ok(rooms) =>
            Ok(ApartmentDetails(row.id, headline, description, date, price, address, rooms, ReadNumBathrooms(t)))
  }

  /** The records `run` keeps: those whose `process` succeeded, in input order. */
  function Extracted(rows: seq<Row>, p: Parsers): (r: seq<ApartmentDetails>)
    ensures |r| <= |rows|
  {
    if rows == [] then []
    else
      var last := rows[|rows| - 1];
      Extracted(rows[..|rows| - 1], p) + (if Process(last, p).Ok? then [Process(last, p).value] else [])
  }

  /** Extending the input by one row extends the kept records or the logged URLs by that row. */
  lemma ExtractedStep(rows: seq<Row>, i: nat, p: Parsers)
    requires i < |rows|
    ensures Extracted(rows[..i + 1], p) ==
      Extracted(rows[..i], p) + (if Process(rows[i], p).Ok? then [Process(rows[i], p).value] else [])
    ensures SkippedUrls(rows[..i + 1], p) ==
      SkippedUrls(rows[..i], p) + (if Process(rows[i], p).Err? then [rows[i].url] else [])
  {
    assert rows[..i + 1][..i] == rows[..i];
  }

  /** The URLs `run` logs, one per record whose `process` raised, in input order. */
  function SkippedUrls(rows: seq<Row>, p: Parsers): (r: seq<string>)
    ensures |r| <= |rows|
  {
    if rows == [] then []
    else
      var last := rows[|rows| - 1];
      SkippedUrls(rows[..|rows| - 1], p) + (if Process(last, p).Err? then [last.url] else [])
  }

  /** The fields the summary table reports, in its order. */
  datatype Field = NumRooms | NumBathrooms | Price | DescriptionField | DatePosted | RawAddress | Headline

  const ReportedFields: seq<Field> := [NumRooms, NumBathrooms, Price, DescriptionField, DatePosted, RawAddress, Headline]

  /** `getattr(result, prop) is not None`. */
  predicate IsPresent(d: ApartmentDetails, f: Field)
  {
    match f
    case NumRooms => d.numRooms.Some?
    case NumBathrooms => d.numBathroomHalves.Some?
    case Price => d.price.Some?
    case DescriptionField => d.description.Some?
    case DatePosted => d.datePosted.Some?
    case RawAddress => d.rawAddress.Some?
    case Headline => true
  }

  /** `len([result for result in results if getattr(result, prop) is not None])`. */
  function CountPresent(results: seq<ApartmentDetails>, f: Field): (n: nat)
    ensures n <= |results|
  {
    if results == [] then 0
    else CountPresent(results[..|results| - 1], f) + (if IsPresent(results[|results| - 1], f) then 1 else 0)
  }

  /** One line of the summary table: a field and how many records have it. */
  datatype PresenceRow = PresenceRow(field: Field, present: nat)

  /** `run` over the selected rows: the batch loop, then the summary table built from the
      records it kept. */
  method Run(rows: seq<Row>, p: Parsers) returns (results: seq<ApartmentDetails>, skipped: seq<string>, table: seq<PresenceRow>)
    ensures results == Extracted(rows, p)
    ensures skipped == SkippedUrls(rows, p)
    ensures |results| + |skipped| == |rows|
    ensures |table| == |ReportedFields|
    ensures forall k | 0 <= k < |table| ::
      table[k].field == ReportedFields[k] && table[k].present == CountPresent(results, ReportedFields[k])
    ensures forall k | 0 <= k < |table| :: table[k].present <= |results|
  {
    results, skipped := ProcessRows(rows, p);
    table := Tabulate(results);
  }

  /** The batch loop of `run`: every row is processed inside its own failure boundary, the
      successes are kept and the failures are logged by URL. */
  method ProcessRows(rows: seq<Row>, p: Parsers) returns (results: seq<ApartmentDetails>, skipped: seq<string>)
    ensures results == Extracted(rows, p)
    ensures skipped == SkippedUrls(rows, p)
    ensures |results| + |skipped| == |rows|
  {
    results, skipped := [], [];
    for i := 0 to |rows|
      invariant results == Extracted(rows[..i], p)
      invariant skipped == SkippedUrls(rows[..i], p)
      invariant |results| + |skipped| == i
    {
      results, skipped := ProcessRow(rows, i, p, results, skipped);
    }
    assert rows[..|rows|] == rows;
  }

  /** One pass of the batch loop: row `i` is processed, and its record is kept or its URL
      logged. */
  method ProcessRow(rows: seq<Row>, i: nat, p: Parsers, results: seq<ApartmentDetails>, skipped: seq<string>)
    returns (results': seq<ApartmentDetails>, skipped': seq<string>)
    requires i < |rows|
    requires results == Extracted(rows[..i], p) && skipped == SkippedUrls(rows[..i], p)
    ensures results' == Extracted(rows[..i + 1], p) && skipped' == SkippedUrls(rows[..i + 1], p)
    ensures |results'| + |skipped'| == |results| + |skipped| + 1
  {
    ExtractedStep(rows, i, p);
    var outcome := Process(rows[i], p);
    if outcome.Ok? {
      results', skipped' := results + [outcome.value], skipped;
    } else {
      results', skipped' := results, skipped + [rows[i].url];
    }
  }

  /** The summary table of `run`: for each reported field, in order, how many of the kept
      records have it. */
  method Tabulate(results: seq<ApartmentDetails>) returns (table: seq<PresenceRow>)
    ensures |table| == |ReportedFields|
    ensures forall k | 0 <= k < |table| ::
      table[k].field == ReportedFields[k] && table[k].present == CountPresent(results, ReportedFields[k])
  {
    table := [];
    for k := 0 to |ReportedFields|
      invariant |table| == k
      invariant forall j | 0 <= j < k ::
        table[j].field == ReportedFields[j] && table[j].present == CountPresent(results, ReportedFields[j])
    {
      var prop := ReportedFields[k];
      var present := 0;
      for j := 0 to |results|
        invariant present == CountPresent(results[..j], prop)
      {
        assert results[..j + 1][..j] == results[..j];
        if IsPresent(results[j], prop) {
          present := present + 1;
        }
      }
      assert results[..|results|] == results;
      table := table + [PresenceRow(prop, present)];
    }
  }
}
