/** What the extraction pass of kijiji_v2/process.py promises: the regular-expression readings
    of prices and bathroom counts, the room sum, the address clean-up, the order of the two date
    paths, worked examples, and the behaviour of the batch loop. */
module ExtractFacts {
  import opened Results
  import opened Text
  import opened Html
  import opened Extract

  // ---------------------------------------------------------------------------------------
  // Price
  // ---------------------------------------------------------------------------------------

  /** The price filter works character by character: it distributes over concatenation. */
  lemma {:induction false} KeepPriceCharsConcat(a: string, b: string)
    ensures KeepPriceChars(a + b) == KeepPriceChars(a) + KeepPriceChars(b)
  {
    if a != [] {
      assert (a + b)[0] == a[0] && (a + b)[1..] == a[1..] + b;
      KeepPriceCharsConcat(a[1..], b);
    } else {
      assert a + b == b;
    }
  }

  /** The price is read from the leftmost digit run of the filtered text: dollars times 100 plus
      the integer after an immediately following comma (0 without one). */
  lemma PriceOfMatch(raw: string, m: NumberMatch)
    requires IsNumberMatch(KeepPriceChars(raw), m)
    ensures PriceOfText(raw).Some? && PriceOfText(raw).value == DecimalValue(m.digits) * 100 + Cents(m.after)
  {
    var v := KeepPriceChars(raw);
    var found := SearchNumber(v);
    assert !NoDigit(v) by {
      assert v[|m.before|] == m.digits[0];
    }
    NumberMatchUnique(v, found.value, m);
  }

  /** Characters other than digits and commas, such as the space that separates thousands or
      the dollar sign, do not change the price wherever they occur. */
  lemma PriceIgnoresOtherChars(a: string, x: char, b: string)
    requires !IsPriceChar(x)
    ensures PriceOfText(a + [x] + b) == PriceOfText(a + b)
  {
    FilterSkips(a, x, b);
    PriceOfFiltered(a + [x] + b, a + b);
  }

  /** The price depends only on the digits and commas of the text. */
  lemma PriceOfFiltered(s: string, t: string)
    requires KeepPriceChars(s) == KeepPriceChars(t)
    ensures PriceOfText(s) == PriceOfText(t)
  {
    assert PriceOfText(s) == PriceOfKept(KeepPriceChars(t));
  }

  /** The filter drops a character that is neither a digit nor a comma. */
  lemma FilterSkips(a: string, x: char, b: string)
    requires !IsPriceChar(x)
    ensures KeepPriceChars(a + [x] + b) == KeepPriceChars(a + b)
  {
    KeepPriceCharsConcat(a + [x], b);
    KeepPriceCharsConcat(a, [x]);
    KeepPriceCharsConcat(a, b);
    assert KeepPriceChars([x]) == [];
  }

  /** Text made only of digits and commas passes the filter unchanged. */
  lemma {:induction false} KeepPriceCharsAll(s: string)
    requires forall k | 0 <= k < |s| :: IsPriceChar(s[k])
    ensures KeepPriceChars(s) == s
  {
    if s != [] {
      KeepPriceCharsAll(s[1..]);
      assert [s[0]] + s[1..] == s;
    }
  }

  /** Dollars, a comma and cents: the cents are added as written, without scaling by their
      number of digits. */
  lemma PriceWithCents(d: string, c: string)
    requires d != [] && AllDigits(d) && c != [] && AllDigits(c)
    ensures PriceOfText(d + "," + c).Some?
    ensures PriceOfText(d + "," + c).value == DecimalValue(d) * 100 + DecimalValue(c)
  {
    DollarsCommaCentsMatch(d, c);
    PriceOfMatch(d + "," + c, NumberMatch([], d, "," + c));
    CentsAsWritten(c);
  }

  /** A present price is determined by its value. */
  lemma SomeOfValue(r: Option<nat>, v: nat)
    requires r.Some? && r.value == v
    ensures r == Some(v)
  {
  }

  /** Dollars, a comma and cents pass the filter whole, and the dollars are its first number. */
  lemma DollarsCommaCentsMatch(d: string, c: string)
    requires d != [] && AllDigits(d) && AllDigits(c)
    ensures IsNumberMatch(KeepPriceChars(d + "," + c), NumberMatch([], d, "," + c))
  {
    var raw := d + "," + c;
    forall k | 0 <= k < |raw|
      ensures IsPriceChar(raw[k])
    {
      if k < |d| {
        assert raw[k] == d[k];
      } else if k > |d| {
        assert raw[k] == c[k - |d| - 1];
      }
    }
    KeepPriceCharsAll(raw);
    assert raw == [] + d + ("," + c);
  }

  lemma CentsAsWritten(c: string)
    requires c != [] && AllDigits(c)
    ensures Cents("," + c) == DecimalValue(c)
  {
    DigitRunOfConcat(c, []);
    assert c + [] == c;
    assert ("," + c)[1..] == c;
  }

  /** The cents are not scaled: "12,5" is 12 dollars and 5 cents. */
  lemma PriceCentsNotScaled()
    ensures PriceOfText("12,5") == Some(1205)
  {
    assert "12"[..1] == "1";
    assert "12" + "," + "5" == "12,5";
    PriceOfDollarsCents("12", "5", "12,5", 1205);
  }

  lemma PriceOfDollarsCents(d: string, c: string, s: string, v: nat)
    requires d != [] && AllDigits(d) && c != [] && AllDigits(c)
    requires s == d + "," + c && v == DecimalValue(d) * 100 + DecimalValue(c)
    ensures PriceOfText(s) == Some(v)
  {
    PriceWithCents(d, c);
    SomeOfValue(PriceOfText(s), v);
  }

  // ---------------------------------------------------------------------------------------
  // Bathrooms
  // ---------------------------------------------------------------------------------------

  /** The bathroom count in halves is twice the leftmost integer, plus one exactly when ",5"
      immediately follows it. */
  lemma BathroomHalvesOfMatch(raw: string, m: NumberMatch)
    requires IsNumberMatch(raw, m)
    ensures BathroomHalves(raw) == Some(2 * DecimalValue(m.digits) + (if ",5" <= m.after then 1 else 0))
  {
    assert !NoDigit(raw) by {
      assert raw[|m.before|] == m.digits[0];
    }
    NumberMatchUnique(raw, SearchNumber(raw).value, m);
  }

  /** A tree whose only label element has the given text. */
  function LabelTree(text: string): Tree
  {
    Tree(map[LabelValue := [Element(text, map[], [])]])
  }

  /** A label element made of single-spaced words that contains the label gives the words
      after its first one. */
  lemma LabelWords(words: seq<string>, name: string)
    requires words != [] && forall k | 0 <= k < |words| :: words[k] != [] && NoSpace(words[k])
    requires Contains(Join(" ", words), name)
    ensures GetRoomElement(LabelTree(Join(" ", words)), name) == Some(Join(" ", words[1..]))
  {
    var t := LabelTree(Join(" ", words));
    SplitJoin(words);
    assert Matches(t, LabelValue) == [Element(Join(" ", words), map[], [])];
    assert FirstWithText(Matches(t, LabelValue), name) == Some(0);
  }

  /** The bathroom label is three words and holds no digit. */
  lemma BathroomsLabelWords()
    ensures Join(" ", ["Salles", "de", "bain"]) == BathroomsLabel
    ensures NoDigit(BathroomsLabel)
  {
  }

  lemma BathroomsLabelThen(value: string)
    ensures Join(" ", ["Salles", "de", "bain", value]) == BathroomsLabel + " " + value
    ensures Join(" ", ["de", "bain", value]) == "de bain " + value
  {
    assert Join(" ", [value]) == value;
    JoinCons("bain", [value]);
    assert ["bain"] + [value] == ["bain", value];
    JoinCons("de", ["bain", value]);
    assert ["de"] + ["bain", value] == ["de", "bain", value];
    JoinCons("Salles", ["de", "bain", value]);
    assert ["Salles"] + ["de", "bain", value] == ["Salles", "de", "bain", value];
  }

  /** "Salles de bain <value>": only the first word is dropped, so the count is read from
      "de bain <value>" (the leftmost integer of which is the one in the value). */
  lemma BathroomsAfterLabel(value: string)
    requires value != [] && NoSpace(value)
    ensures ReadNumBathrooms(LabelTree(BathroomsLabel + " " + value)) == BathroomHalves("de bain " + value)
  {
    var words := ["Salles", "de", "bain", value];
    BathroomsLabelThen(value);
    ContainsPrefix(BathroomsLabel, " " + value);
    assert BathroomsLabel + " " + value == BathroomsLabel + (" " + value);
    LabelWords(words, BathroomsLabel);
    assert words[1..] == ["de", "bain", value];
  }

  /** Only the first word of the label element is dropped, so a count written before the label
      ("2,5 Salles de bain") is dropped with it and the field is absent. */
  lemma CountBeforeLabelDropped(count: string)
    requires count != [] && NoSpace(count)
    ensures ReadNumBathrooms(LabelTree(count + " " + BathroomsLabel)) == None
  {
    var words := [count] + ["Salles", "de", "bain"];
    BathroomsLabelWords();
    JoinCons(count, ["Salles", "de", "bain"]);
    ContainsAfter(count + " ", BathroomsLabel);
    LabelWords(words, BathroomsLabel);
  }

  /** No label element containing "Salles de bain" means no bathroom count. */
  lemma BathroomsNeedLabel(t: Tree)
    requires forall e | e in Matches(t, LabelValue) :: !Contains(e.text, BathroomsLabel)
    ensures ReadNumBathrooms(t) == None
  {
  }

  // ---------------------------------------------------------------------------------------
  // Rooms
  // ---------------------------------------------------------------------------------------

  /** `Fraction("a/b")` is a / b for digit strings with a non-zero denominator. */
  lemma ParseRatio(a: string, b: string)
    requires a != [] && AllDigits(a) && b != [] && AllDigits(b) && DecimalValue(b) != 0
    ensures ParseFraction(a + "/" + b) == Ok(Ratio(DecimalValue(a), DecimalValue(b)))
  {
    UnsignedRatio(a, b);
    assert (a + "/" + b)[0] == a[0];
    ParseUnsigned(a + "/" + b);
  }

  /** A numeral without a leading sign has the value of its unsigned reading. */
  lemma ParseUnsigned(s: string)
    requires s != [] && s[0] != '-' && s[0] != '+' && UnsignedFraction(s).Some?
    ensures ParseFraction(s) == Ok(UnsignedFraction(s).value)
  {
  }

  lemma UnsignedRatio(a: string, b: string)
    requires a != [] && AllDigits(a) && b != [] && AllDigits(b) && DecimalValue(b) != 0
    ensures UnsignedFraction(a + "/" + b) == Some(Ratio(DecimalValue(a), DecimalValue(b)))
  {
    var s := a + "/" + b;
    assert s == a + ("/" + b);
    DigitRunOfConcat(a, "/" + b);
    assert s[|a|..] == "/" + b;
    assert ("/" + b)[1..] == b;
  }

  lemma UnsignedPoint(a: string, b: string)
    requires AllDigits(a) && AllDigits(b) && (a != [] || b != [])
    ensures UnsignedFraction(a + "." + b) == Some(PointValue(DecimalValue(a), b))
  {
    var s := a + "." + b;
    assert s == a + ("." + b);
    DigitRunOfConcat(a, "." + b);
    assert s[|a|..] == "." + b;
    assert ("." + b)[1..] == b;
  }

  /** `Fraction("a.b")` is the decimal a.b, for digit strings not both empty ("1.", ".5", "2.25"). */
  lemma ParsePoint(a: string, b: string)
    requires AllDigits(a) && AllDigits(b) && (a != [] || b != [])
    ensures ParseFraction(a + "." + b) == Ok(PointValue(DecimalValue(a), b))
  {
    UnsignedPoint(a, b);
    var s := a + "." + b;
    assert s[0] == if a != [] then a[0] else '.';
    ParseUnsigned(s);
  }

  /** A leading "-" negates a numeral and a leading "+" keeps it; either way the signed part is a
      fraction exactly when the unsigned one is. */
  lemma ParseSigned(s: string)
    requires s == [] || (s[0] != '-' && s[0] != '+')
    ensures ParseFraction("-" + s).Ok? <==> ParseFraction(s).Ok?
    ensures ParseFraction(s).Ok? ==> ParseFraction("-" + s).value == -ParseFraction(s).value
    ensures ParseFraction("+" + s).Ok? <==> ParseFraction(s).Ok?
    ensures ParseFraction(s).Ok? ==> ParseFraction("+" + s).value == ParseFraction(s).value
  {
    assert ("-" + s)[0] == '-' && ("-" + s)[1..] == s;
    assert ("+" + s)[0] == '+' && ("+" + s)[1..] == s;
  }

  /** A character that never occurs in a numeral `Fraction` accepts after its sign: not
      whitespace, not a digit, and none of "/", "." and the exponent and digit-group marks
      "e", "E" and "_". */
  predicate ForeignToNumeral(c: char)
  {
    !IsSpace(c) && !IsDigit(c) && c !in "/.eE_"
  }

  /** A part whose first character is neither whitespace, a digit, "." nor a sign is not a
      fraction: `Fraction` needs a digit or "." after the optional sign. */
  lemma ParseFractionRejectsLead(s: string)
    requires s != [] && !IsSpace(s[0]) && !IsDigit(s[0]) && s[0] !in ".+-"
    ensures ParseFraction(s) == Err(BadFraction(s))
  {
    assert DigitRun(s) == [];
    assert s[|DigitRun(s)|..] == s;
  }

  /** A part holding a character foreign to numerals, other than a sign, is not a fraction: it
      raises. */
  lemma ParseFractionRejects(s: string, k: nat)
    requires k < |s| && ForeignToNumeral(s[k]) && s[k] != '+' && s[k] != '-'
    ensures ParseFraction(s) == Err(BadFraction(s))
  {
    var body := if s[0] == '-' || s[0] == '+' then s[1..] else s;
    var i := if body == s then k else k - 1;
    assert 0 <= i < |body| && body[i] == s[k];
    UnsignedRejects(body, i);
  }

  lemma NotNumeralLead(w: string)
    requires w != [] && NoSpace(w) && w[0] !in "0123456789/.+-"
    ensures !IsSpace(w[0]) && !IsDigit(w[0]) && w[0] !in ".+-"
  {
  }

  /** An unsigned numeral with a character foreign to numerals (a sign included) is
      rejected. */
  lemma UnsignedRejects(body: string, i: nat)
    requires i < |body| && ForeignToNumeral(body[i])
    ensures UnsignedFraction(body) == None
  {
    var n := DigitRun(body);
    assert i >= |n|;
    var rest := body[|n|..];
    assert rest[i - |n|] == body[i];
    if rest[0] == '/' || rest[0] == '.' {
      assert i - |n| >= 1;
      assert !AllDigits(rest[1..]) by {
        assert rest[1..][i - |n| - 1] == body[i];
      }
    }
  }

  /** The room count is the exact sum of the first one or two words after "½" is replaced by
      "1/2", provided the words are single-spaced and whitespace-free (as
      `get_room_element` returns them). */
  lemma {:induction false} RoomsOfWords(words: seq<string>)
    requires |words| >= 1
    requires forall k | 0 <= k < |words| :: NoSpace(words[k])
    ensures RoomsOfText(Join(" ", words)) == SumFractions(TakeTwo(MapReplace(words, HalfGlyph, "1/2")))
  {
    ReplaceJoin(words, ' ', HalfGlyph, "1/2");
    var replaced := MapReplace(words, HalfGlyph, "1/2");
    forall k | 0 <= k < |replaced| ensures ' ' !in replaced[k] {
      forall j | 0 <= j < |words[k]| ensures words[k][j] != ' ' {
        assert !IsSpace(words[k][j]);
      }
      ReplaceKeepsOut(words[k], HalfGlyph, "1/2", ' ');
    }
    SplitOnJoin(replaced, ' ');
  }

  /** The room count of a tree: the words of the first label element containing "Pièces" after
      its first word are summed, at most two of them, with "½" read as 1/2. */
  lemma RoomsFromLabelWords(t: Tree)
    requires GetRoomElement(t, RoomsLabel).Some?
    ensures
      var els := Matches(t, LabelValue);
      var words := DropFirst(Split(els[FirstWithText(els, RoomsLabel).value].text));
      && (words == [] ==> ReadNumRooms(t) == Ok(None))
      && (words != [] ==>
            && GetRoomElement(t, RoomsLabel).value == Join(" ", words)
            && RoomsOfText(Join(" ", words)) == SumFractions(TakeTwo(MapReplace(words, HalfGlyph, "1/2"))))
  {
    var els := Matches(t, LabelValue);
    var words := DropFirst(Split(els[FirstWithText(els, RoomsLabel).value].text));
    if words != [] {
      RoomsOfWords(words);
    }
  }

  lemma RoomsLabelThen(a: string, b: string)
    ensures Join(" ", [RoomsLabel, a, b]) == RoomsLabel + " " + a + " " + b
    ensures Join(" ", [a, b]) == a + " " + b
  {
    JoinCons(a, [b]);
    assert [a] + [b] == [a, b];
    JoinCons(RoomsLabel, [a, b]);
    assert [RoomsLabel] + [a, b] == [RoomsLabel, a, b];
  }

  /** "Pièces <a> <b>": the two words after the label, with "½" replaced, are summed; the
      first one that is not a fraction is the error. */
  lemma RoomsAfterLabel(a: string, b: string)
    requires a != [] && NoSpace(a) && b != [] && NoSpace(b)
    ensures
      var r := ReadNumRooms(LabelTree(RoomsLabel + " " + a + " " + b));
      var sum := SumFractions(MapReplace([a, b], HalfGlyph, "1/2"));
      && (sum.Ok? ==> r == Ok(Some(sum.value)))
      && (sum.Err? ==> r == Err(sum.error))
  {
    RoomsLabelThen(a, b);
    assert NoSpace(RoomsLabel);
    ContainsPrefix(RoomsLabel, " " + a + " " + b);
    assert RoomsLabel + " " + a + " " + b == RoomsLabel + (" " + a + " " + b);
    LabelWords([RoomsLabel, a, b], RoomsLabel);
    assert [RoomsLabel, a, b][1..] == [a, b];
    RoomsOfWords([a, b]);
  }

  lemma HalfParts(d: string)
    requires AllDigits(d)
    ensures MapReplace([d, [HalfGlyph]], HalfGlyph, "1/2") == [d, "1/2"]
  {
    ReplaceAbsent(d, HalfGlyph, "1/2");
    assert Replace([HalfGlyph], HalfGlyph, "1/2") == "1/2";
  }

  lemma HalfFraction()
    ensures ParseFraction("1/2") == Ok(0.5)
  {
    assert "1" + "/" + "2" == "1/2";
    assert DecimalValue("1") == 1 && DecimalValue("2") == 2;
    assert Ratio(1, 2) == 0.5;
    RatioOf("1", "2", "1/2", 0.5);
  }

  lemma RatioOf(a: string, b: string, s: string, v: real)
    requires a != [] && AllDigits(a) && b != [] && AllDigits(b) && DecimalValue(b) != 0
    requires s == a + "/" + b && v == Ratio(DecimalValue(a), DecimalValue(b))
    ensures ParseFraction(s) == Ok(v)
  {
    ParseRatio(a, b);
  }

  /** Two fractions that parse add up. */
  lemma SumPair(a: string, b: string, x: real, y: real)
    requires ParseFraction(a) == Ok(x) && ParseFraction(b) == Ok(y)
    ensures SumFractions([a, b]) == Ok(x + y)
  {
    SumSingle(b, y);
    PairTail(a, b);
    SumCons([a, b], x, y);
  }

  lemma PairTail(a: string, b: string)
    ensures [a, b][0] == a && [a, b][1..] == [b]
  {
  }

  /** The sum of parts is the first part's value plus the sum of the rest. */
  lemma SumCons(parts: seq<string>, x: real, y: real)
    requires parts != [] && ParseFraction(parts[0]) == Ok(x) && SumFractions(parts[1..]) == Ok(y)
    ensures SumFractions(parts) == Ok(x + y)
  {
    SumConsValue(parts, x, y);
    OkOfValue(SumFractions(parts), x + y);
  }

  /** A successful result is determined by its value. */
  lemma OkOfValue(r: Result<real, Failure>, v: real)
    requires r.Ok? && r.value == v
    ensures r == Ok(v)
  {
  }

  lemma SumSingle(f: string, v: real)
    requires ParseFraction(f) == Ok(v)
    ensures SumFractions([f]) == Ok(v)
  {
    assert [f][1..] == [];
  }

  /** The sum of two runs of parts that both parse is the sum of their sums; with `SumSingle`
      this gives the value of every successful sum. */
  lemma {:induction false} SumFractionsConcat(a: seq<string>, b: seq<string>)
    requires SumFractions(a).Ok? && SumFractions(b).Ok?
    ensures SumFractions(a + b).Ok?
    ensures SumFractions(a + b).value == SumFractions(a).value + SumFractions(b).value
  {
    if a == [] {
      assert a + b == b;
    } else {
      var ab := a + b;
      var x, rest := SumStep(a);
      SumFractionsConcat(a[1..], b);
      ConsConcat(a, b);
      SumConsValue(ab, x, SumFractions(a[1..] + b).value);
    }
  }

  /** A sum of parts that all parse is the first part's value plus the sum of the others. */
  lemma SumStep(parts: seq<string>) returns (x: real, rest: real)
    requires parts != [] && SumFractions(parts).Ok?
    ensures ParseFraction(parts[0]) == Ok(x) && SumFractions(parts[1..]) == Ok(rest)
    ensures SumFractions(parts).value == x + rest
  {
    x := ParseFraction(parts[0]).value;
    rest := SumFractions(parts[1..]).value;
  }

  lemma ConsConcat(a: seq<string>, b: seq<string>)
    requires a != []
    ensures (a + b)[0] == a[0] && (a + b)[1..] == a[1..] + b
  {
  }

  /** A first part that parses, ahead of parts whose sum succeeds, adds its value to the sum. */
  lemma SumConsValue(parts: seq<string>, x: real, y: real)
    requires parts != [] && ParseFraction(parts[0]) == Ok(x) && SumFractions(parts[1..]) == Ok(y)
    ensures SumFractions(parts).Ok? && SumFractions(parts).value == x + y
  {
  }

  /** A whole number followed by a fraction that parses sums to the number plus the fraction. */
  lemma SumWithFraction(d: string, f: string, v: real)
    requires d != [] && AllDigits(d) && ParseFraction(f) == Ok(v)
    ensures SumFractions([d, f]) == Ok(DecimalValue(d) as real + v)
  {
    WholeNumberFraction(d);
    SumSingle(f, v);
    PairTail(d, f);
    SumCons([d, f], DecimalValue(d) as real, v);
  }

  lemma WholeNumberFraction(d: string)
    requires d != [] && AllDigits(d)
    ensures ParseFraction(d) == Ok(DecimalValue(d) as real)
  {
  }

  /** "Pièces <n> ½" gives n + 1/2 rooms, exactly. */
  lemma RoomsWithHalf(d: string)
    requires d != [] && AllDigits(d)
    ensures ReadNumRooms(LabelTree(RoomsLabel + " " + d + " " + [HalfGlyph])) == Ok(Some(DecimalValue(d) as real + 0.5))
  {
    RoomsAfterLabel(d, [HalfGlyph]);
    HalfParts(d);
    HalfFraction();
    SumWithFraction(d, "1/2", 0.5);
  }

  /** A second part that does not parse makes the whole sum fail with it. */
  lemma SumSecondFails(a: string, b: string)
    requires ParseFraction(a).Ok? && ParseFraction(b).Err?
    ensures SumFractions([a, b]) == Err(BadFraction(b))
  {
    assert [a, b][1..] == [b];
    assert [b][1..] == [];
  }

  lemma PlainParts(a: string, b: string)
    requires HalfGlyph !in a && HalfGlyph !in b
    ensures MapReplace([a, b], HalfGlyph, "1/2") == [a, b]
  {
    ReplaceAbsent(a, HalfGlyph, "1/2");
    ReplaceAbsent(b, HalfGlyph, "1/2");
  }

  /** A word that is not a fraction ("Pièces 3 et demie") makes the extraction raise, and `run`
      skip the record. */
  lemma RoomsRejectWord(d: string, w: string)
    requires d != [] && AllDigits(d)
    requires w != [] && NoSpace(w) && HalfGlyph !in w && w[0] !in "0123456789/.+-"
    ensures ReadNumRooms(LabelTree(RoomsLabel + " " + d + " " + w)) == Err(BadFraction(w))
  {
    assert NoSpace(d);
    RoomsAfterLabel(d, w);
    PlainParts(d, w);
    NotNumeralLead(w);
    ParseFractionRejectsLead(w);
    SumSecondFails(d, w);
  }

  /** Three words joined by single spaces. */
  lemma JoinThree(a: string, b: string, c: string)
    ensures Join(" ", [a, b, c]) == a + " " + b + " " + c
  {
    JoinCons(b, [c]);
    assert [b] + [c] == [b, c];
    JoinCons(a, [b, c]);
    assert [a] + [b, c] == [a, b, c];
  }

  /** "½ <w>" where w is a word that is not a fraction: the sum fails on w. */
  lemma HalfThenWordRaises(w: string)
    requires w != [] && NoSpace(w) && HalfGlyph !in w && w[0] !in "0123456789/.+-"
    ensures RoomsOfText([HalfGlyph] + " " + w) == Err(BadFraction(w))
  {
    JoinCons([HalfGlyph], [w]);
    assert [[HalfGlyph]] + [w] == [[HalfGlyph], w];
    assert Join(" ", [w]) == w;
    assert NoSpace([HalfGlyph]);
    RoomsOfWords([[HalfGlyph], w]);
    ReplaceAbsent(w, HalfGlyph, "1/2");
    assert Replace([HalfGlyph], HalfGlyph, "1/2") == "1/2";
    assert MapReplace([[HalfGlyph], w], HalfGlyph, "1/2") == ["1/2", w];
    HalfFraction();
    NotNumeralLead(w);
    ParseFractionRejectsLead(w);
    SumSecondFails("1/2", w);
  }

  lemma RoomsLabelWord()
    ensures RoomsLabel != [] && NoSpace(RoomsLabel) && HalfGlyph !in RoomsLabel
    ensures RoomsLabel[0] !in "0123456789/.+-"
  {
  }

  /** "<n> ½ Pièces", with the count before the label: the first word is dropped, "Pièces" is
      read as the second fraction, and the extraction raises, so `run` skips the record. */
  lemma CountBeforeRoomsLabelRaises(d: string)
    requires d != [] && NoSpace(d)
    ensures ReadNumRooms(LabelTree(d + " " + [HalfGlyph] + " " + RoomsLabel)) == Err(BadFraction(RoomsLabel))
  {
    CountBeforeRoomsLabelWords(d);
    RoomsLabelWord();
    HalfThenWordRaises(RoomsLabel);
  }

  lemma CountBeforeRoomsLabelWords(d: string)
    requires d != [] && NoSpace(d)
    ensures GetRoomElement(LabelTree(d + " " + [HalfGlyph] + " " + RoomsLabel), RoomsLabel)
      == Some([HalfGlyph] + " " + RoomsLabel)
  {
    var words := [d, [HalfGlyph], RoomsLabel];
    JoinThree(d, [HalfGlyph], RoomsLabel);
    RoomsLabelWord();
    assert NoSpace([HalfGlyph]);
    ContainsAfter(d + " " + [HalfGlyph] + " ", RoomsLabel);
    LabelWords(words, RoomsLabel);
    assert words[1..] == [[HalfGlyph], RoomsLabel];
    JoinCons([HalfGlyph], [RoomsLabel]);
    assert [[HalfGlyph]] + [RoomsLabel] == words[1..];
  }

  // ---------------------------------------------------------------------------------------
  // Address
  // ---------------------------------------------------------------------------------------

  /** A tree whose only address element has the given text. */
  function AddressTree(text: string): Tree
  {
    Tree(map[Address := [Element(text, map[], [])]])
  }

  /** The leading ", " artifact and the whitespace around the address are removed, and nothing
      else is. */
  lemma AddressDropsArtifact(pre: string, m: string, post: string)
    requires AllSpace(pre) && AllSpace(post)
    requires m == [] || (!IsSpace(m[0]) && !IsSpace(m[|m| - 1]))
    ensures ReadRawAddress(AddressTree(", " + pre + m + post)) == Some(m)
  {
    var text := ", " + pre + m + post;
    assert ", " <= text;
    assert text[2..] == pre + m + post;
    StripPadded(pre, m, post);
  }

  /** Without the artifact only the surrounding whitespace is removed. */
  lemma AddressStripsSpace(pre: string, m: string, post: string)
    requires AllSpace(pre) && AllSpace(post)
    requires m == [] || (!IsSpace(m[0]) && !IsSpace(m[|m| - 1]))
    requires pre + m + post != [] && !(", " <= pre + m + post)
    ensures ReadRawAddress(AddressTree(pre + m + post)) == Some(m)
  {
    StripPadded(pre, m, post);
  }

  /** Only one leading ", " is removed: ", , Québec" becomes ", Québec". */
  lemma AddressDropsOneArtifact(m: string)
    requires m != [] && !IsSpace(m[|m| - 1])
    ensures ReadRawAddress(AddressTree(", , " + m)) == Some(", " + m)
  {
    var rest := ", " + m;
    assert rest[|rest| - 1] == m[|m| - 1];
    AddressDropsArtifact([], rest, []);
    assert ", " + [] == ", ";
    assert ", " + rest + [] == ", " + rest;
    StringAssoc(", ", ", ", m);
    assert ", " + ", " == ", , ";
  }

  // ---------------------------------------------------------------------------------------
  // Date posted
  // ---------------------------------------------------------------------------------------

  /** When the modern `time` element exists, the legacy elements do not matter at all. */
  lemma ModernDateWins(t: Tree, legacy: seq<Element>, p: Parsers)
    requires Select(t, DatePostedTime).Some?
    ensures ReadDatePosted(WithMatches(t, DatePostedTitle, legacy), p) == ReadDatePosted(t, p)
  {
  }

  /** Without the modern element the legacy `title` is used, and without either there is no
      date: which parser runs depends only on which elements exist. */
  lemma DatePathChoice(t: Tree, p: Parsers)
    ensures ReadDatePosted(t, p).Ok? && ReadDatePosted(t, p).value.Some? ==>
      var d := ReadDatePosted(t, p).value.value;
      || (DatePathOf(t) == ModernTime && Get(Select(t, DatePostedTime).value, "datetime").Some?
          && p.isoParse(Get(Select(t, DatePostedTime).value, "datetime").value) == Some(d))
      || (DatePathOf(t) == LegacyTitle && Get(Select(t, DatePostedTitle).value, "title").Some?
          && p.legacyParse(Get(Select(t, DatePostedTitle).value, "title").value) == Some(d))
    ensures ReadDatePosted(t, p) == Ok(None) <==> DatePathOf(t) == NoDate
  {
  }

  // ---------------------------------------------------------------------------------------
  // The batch loop of run
  // ---------------------------------------------------------------------------------------

  /** The batch splits over concatenated inputs: records are kept, and URLs logged, in input
      order. */
  lemma ExtractedConcat(a: seq<Row>, b: seq<Row>, p: Parsers)
    ensures Extracted(a + b, p) == Extracted(a, p) + Extracted(b, p)
    ensures SkippedUrls(a + b, p) == SkippedUrls(a, p) + SkippedUrls(b, p)
  {
    KeptConcat(a, b, p);
    SkippedConcat(a, b, p);
  }

  lemma {:induction false} KeptConcat(a: seq<Row>, b: seq<Row>, p: Parsers)
    ensures Extracted(a + b, p) == Extracted(a, p) + Extracted(b, p)
  {
    if b == [] {
      assert a + b == a;
    } else {
      var b' := b[..|b| - 1];
      assert (a + b)[..|a + b| - 1] == a + b';
      KeptConcat(a, b', p);
    }
  }

  lemma {:induction false} SkippedConcat(a: seq<Row>, b: seq<Row>, p: Parsers)
    ensures SkippedUrls(a + b, p) == SkippedUrls(a, p) + SkippedUrls(b, p)
  {
    if b == [] {
      assert a + b == a;
    } else {
      var b' := b[..|b| - 1];
      assert (a + b)[..|a + b| - 1] == a + b';
      SkippedConcat(a, b', p);
    }
  }

  /** Every input row either yields one kept record or one logged URL. */
  lemma {:induction false} KeptPlusSkipped(rows: seq<Row>, p: Parsers)
    ensures |Extracted(rows, p)| + |SkippedUrls(rows, p)| == |rows|
  {
    if rows != [] {
      KeptPlusSkipped(rows[..|rows| - 1], p);
    }
  }

  /** A record is kept exactly when its `process` succeeded, and then its details are kept. */
  lemma ExtractedAreProcessed(rows: seq<Row>, p: Parsers)
    ensures forall k | 0 <= k < |rows| && Process(rows[k], p).Ok? :: Process(rows[k], p).value in Extracted(rows, p)
    ensures forall d | d in Extracted(rows, p) :: exists k | 0 <= k < |rows| :: Process(rows[k], p) == Ok(d)
  {
    SuccessesKept(rows, p);
    KeptAreSuccesses(rows, p);
  }

  lemma {:induction false} SuccessesKept(rows: seq<Row>, p: Parsers)
    ensures forall k | 0 <= k < |rows| && Process(rows[k], p).Ok? :: Process(rows[k], p).value in Extracted(rows, p)
  {
    if rows != [] {
      var init := rows[..|rows| - 1];
      SuccessesKept(init, p);
      forall k | 0 <= k < |rows| && Process(rows[k], p).Ok? ensures Process(rows[k], p).value in Extracted(rows, p) {
        if k < |init| {
          assert rows[k] == init[k];
        }
      }
    }
  }

  lemma {:induction false} KeptAreSuccesses(rows: seq<Row>, p: Parsers)
    ensures forall d | d in Extracted(rows, p) :: exists k | 0 <= k < |rows| :: Process(rows[k], p) == Ok(d)
  {
    if rows != [] {
      var init := rows[..|rows| - 1];
      KeptAreSuccesses(init, p);
      forall d | d in Extracted(rows, p) ensures exists k | 0 <= k < |rows| :: Process(rows[k], p) == Ok(d) {
        if d in Extracted(init, p) {
          var k :| 0 <= k < |init| && Process(init[k], p) == Ok(d);
          assert rows[k] == init[k];
        } else {
          assert Process(rows[|rows| - 1], p) == Ok(d);
        }
      }
    }
  }

  /** A record that raises adds nothing to the kept records and its URL to the log. */
  lemma BadRowSkipped(rows: seq<Row>, bad: Row, p: Parsers)
    requires Process(bad, p).Err?
    ensures Extracted(rows + [bad], p) == Extracted(rows, p)
    ensures SkippedUrls(rows + [bad], p) == SkippedUrls(rows, p) + [bad.url]
  {
    assert (rows + [bad])[..|rows|] == rows;
  }

  /** Failure isolation: one record that raises among records that do not costs exactly that
      record, which is logged by its URL. */
  lemma OneBadRecord(good: seq<Row>, bad: Row, more: seq<Row>, p: Parsers)
    requires forall k | 0 <= k < |good| :: Process(good[k], p).Ok?
    requires forall k | 0 <= k < |more| :: Process(more[k], p).Ok?
    requires Process(bad, p).Err?
    ensures Extracted(good + [bad] + more, p) == Extracted(good, p) + Extracted(more, p)
    ensures |Extracted(good + [bad] + more, p)| == |good| + |more|
    ensures SkippedUrls(good + [bad] + more, p) == [bad.url]
  {
    ExtractedConcat(good + [bad], more, p);
    BadRowSkipped(good, bad, p);
    NoneSkipped(good, p);
    NoneSkipped(more, p);
    KeptPlusSkipped(good, p);
    KeptPlusSkipped(more, p);
  }

  /** With no failing record nothing is logged. */
  lemma {:induction false} NoneSkipped(rows: seq<Row>, p: Parsers)
    requires forall k | 0 <= k < |rows| :: Process(rows[k], p).Ok?
    ensures SkippedUrls(rows, p) == []
  {
    if rows != [] {
      NoneSkipped(rows[..|rows| - 1], p);
    }
  }

  /** The headline is never `None`, so its present-count is the number of kept records. */
  lemma {:induction false} HeadlineAlwaysCounted(results: seq<ApartmentDetails>)
    ensures CountPresent(results, Headline) == |results|
  {
    if results != [] {
      HeadlineAlwaysCounted(results[..|results| - 1]);
    }
  }
}
