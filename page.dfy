/**
 * The state the page builder (src/Page.js) keeps and changes: the rewriting
 * of U.S. state abbreviations in a search query, the unit label, the
 * show/hide flag of the daily forecast, and what the unit-toggle and search
 * handlers do to the page's and the weather object's state. Replies from the
 * network are parameters; the requests a handler would send are returned.
 */
module Page {
  import opened Wrappers
  import opened Strings
  import opened Weather

  // ---------------------------------------------------------------------------
  // State abbreviations.

  /** One `[fullName, abbreviation]` pair of the table. */
  datatype StateEntry = StateEntry(name: string, code: string)

  /** An ASCII upper-case letter. */
  predicate IsUpper(c: char) {
    'A' <= c <= 'Z'
  }

  /** `s` has two adjacent upper-case letters at `i`. */
  predicate UpperPairAt(s: string, i: int) {
    0 <= i && i + 1 < |s| && IsUpper(s[i]) && IsUpper(s[i + 1])
  }

  /** `s` has no two adjacent upper-case letters, so no code of the table can match in it. */
  predicate NoUpperPair(s: string) {
    forall i | 0 <= i < |s| :: !UpperPairAt(s, i)
  }

  /** A row of the table: its code is two upper-case letters and its name has at least 4 characters. */
  predicate WellFormedRow(e: StateEntry) {
    |e.code| == 2 && IsUpper(e.code[0]) && IsUpper(e.code[1]) && |e.name| >= 4
  }

  /** Row `i` of the `states` table of `stateAbbreviationMapping`, in its order. */
  function StateAt(i: nat): StateEntry
    requires i < 50
  {
    match i
    case 0 => StateEntry("Arizona", "AZ")
    case 1 => StateEntry("Alabama", "AL")
    case 2 => StateEntry("Alaska", "AK")
    case 3 => StateEntry("Arkansas", "AR")
    case 4 => StateEntry("California", "CA")
    case 5 => StateEntry("Colorado", "CO")
    case 6 => StateEntry("Connecticut", "CT")
    case 7 => StateEntry("Delaware", "DE")
    case 8 => StateEntry("Florida", "FL")
    case 9 => StateEntry("Georgia", "GA")
    case 10 => StateEntry("Hawaii", "HI")
    case 11 => StateEntry("Idaho", "ID")
    case 12 => StateEntry("Illinois", "IL")
    case 13 => StateEntry("Indiana", "IN")
    case 14 => StateEntry("Iowa", "IA")
    case 15 => StateEntry("Kansas", "KS")
    case 16 => StateEntry("Kentucky", "KY")
    case 17 => StateEntry("Louisiana", "LA")
    case 18 => StateEntry("Maine", "ME")
    case 19 => StateEntry("Maryland", "MD")
    case 20 => StateEntry("Massachusetts", "MA")
    case 21 => StateEntry("Michigan", "MI")
    case 22 => StateEntry("Minnesota", "MN")
    case 23 => StateEntry("Mississippi", "MS")
    case 24 => StateEntry("Missouri", "MO")
    case 25 => StateEntry("Montana", "MT")
    case 26 => StateEntry("Nebraska", "NE")
    case 27 => StateEntry("Nevada", "NV")
    case 28 => StateEntry("New Hampshire", "NH")
    case 29 => StateEntry("New Jersey", "NJ")
    case 30 => StateEntry("New Mexico", "NM")
    case 31 => StateEntry("New York", "NY")
    case 32 => StateEntry("North Carolina", "NC")
    case 33 => StateEntry("North Dakota", "ND")
    case 34 => StateEntry("Ohio", "OH")
    case 35 => StateEntry("Oklahoma", "OK")
    case 36 => StateEntry("Oregon", "OR")
    case 37 => StateEntry("Pennsylvania", "PA")
    case 38 => StateEntry("Rhode Island", "RI")
    case 39 => StateEntry("South Carolina", "SC")
    case 40 => StateEntry("South Dakota", "SD")
    case 41 => StateEntry("Tennessee", "TN")
    case 42 => StateEntry("Texas", "TX")
    case 43 => StateEntry("Utah", "UT")
    case 44 => StateEntry("Vermont", "VT")
    case 45 => StateEntry("Virginia", "VA")
    case 46 => StateEntry("Washington", "WA")
    case 47 => StateEntry("West Virginia", "WV")
    case 48 => StateEntry("Wisconsin", "WI")
    case 49 => StateEntry("Wyoming", "WY")
    case _ => StateEntry("", "")
  }

  /** The `states` table of `stateAbbreviationMapping`. */
  const States: seq<StateEntry> := seq(50, i requires 0 <= i < 50 => StateAt(i))

  /** Every entry's full name is longer than its code. */
  predicate NamesLonger(table: seq<StateEntry>) {
    forall k | 0 <= k < |table| :: |table[k].name| > |table[k].code|
  }

  /** No code of `table` occurs in `query`. */
  predicate NoCodeIn(query: string, table: seq<StateEntry>) {
    forall k | 0 <= k < |table| :: !Includes(query, table[k].code)
  }

  // The table facts are checked in blocks of rows, which keeps each proof small.

  lemma RowsWellFormedLow()
    ensures forall k | 0 <= k < 25 :: WellFormedRow(States[k])
  {
  }

  lemma RowsWellFormedHigh()
    ensures forall k | 25 <= k < 50 :: WellFormedRow(States[k])
  {
  }

  /** The table holds 50 rows, each well formed. */
  lemma StatesRowsWellFormed()
    ensures |States| == 50
    ensures forall k | 0 <= k < |States| :: WellFormedRow(States[k])
  {
    RowsWellFormedLow();
    RowsWellFormedHigh();
  }

  lemma NamesWithoutPairs0To5()
    ensures forall k | 0 <= k < 5 :: NoUpperPair(States[k].name)
  {
  }

  lemma NamesWithoutPairs5To8()
    ensures forall k | 5 <= k < 8 :: NoUpperPair(States[k].name)
  {
  }

  lemma NamesWithoutPairs8To10()
    ensures forall k | 8 <= k < 10 :: NoUpperPair(States[k].name)
  {
  }

  lemma NamesWithoutPairs10To15()
    ensures forall k | 10 <= k < 15 :: NoUpperPair(States[k].name)
  {
  }

  lemma NamesWithoutPairs15To20()
    ensures forall k | 15 <= k < 20 :: NoUpperPair(States[k].name)
  {
  }

  lemma NamesWithoutPairs20To25()
    ensures forall k | 20 <= k < 25 :: NoUpperPair(States[k].name)
  {
  }

  lemma NamesWithoutPairs25To30()
    ensures forall k | 25 <= k < 30 :: NoUpperPair(States[k].name)
  {
  }

  lemma NamesWithoutPairs30To33()
    ensures forall k | 30 <= k < 33 :: NoUpperPair(States[k].name)
  {
  }

  lemma NamesWithoutPairs33To37()
    ensures forall k | 33 <= k < 37 :: NoUpperPair(States[k].name)
  {
  }

  lemma NamesWithoutPairs37To40()
    ensures forall k | 37 <= k < 40 :: NoUpperPair(States[k].name)
  {
  }

  lemma NamesWithoutPairs40To45()
    ensures forall k | 40 <= k < 45 :: NoUpperPair(States[k].name)
  {
  }

  lemma NamesWithoutPairs45To48()
    ensures forall k | 45 <= k < 48 :: NoUpperPair(States[k].name)
  {
  }

  lemma NamesWithoutPairs48To50()
    ensures forall k | 48 <= k < 50 :: NoUpperPair(States[k].name)
  {
  }

  /** No full name has two adjacent upper-case letters. */
  lemma StatesNamesWithoutPairs()
    ensures forall k | 0 <= k < |States| :: NoUpperPair(States[k].name)
  {
    NamesWithoutPairs0To5();
    NamesWithoutPairs5To8();
    NamesWithoutPairs8To10();
    NamesWithoutPairs10To15();
    NamesWithoutPairs15To20();
    NamesWithoutPairs20To25();
    NamesWithoutPairs25To30();
    NamesWithoutPairs30To33();
    NamesWithoutPairs33To37();
    NamesWithoutPairs37To40();
    NamesWithoutPairs40To45();
    NamesWithoutPairs45To48();
    NamesWithoutPairs48To50();
  }

  lemma CodesDistinctLow()
    ensures forall k, j | 0 <= k < j < 25 :: States[k].code != States[j].code
  {
  }

  lemma CodesDistinctHigh()
    ensures forall k, j | 25 <= k < j < 50 :: States[k].code != States[j].code
  {
  }

  lemma CodesDistinctAcrossLow()
    ensures forall k, j | 0 <= k < 25 <= j < 37 :: States[k].code != States[j].code
  {
  }

  lemma CodesDistinctAcrossHigh()
    ensures forall k, j | 0 <= k < 25 && 37 <= j < 50 :: States[k].code != States[j].code
  {
  }

  /** No two rows of the table share a code. */
  lemma StatesCodesDistinct()
    ensures forall k, j | 0 <= k < j < |States| :: States[k].code != States[j].code
  {
    CodesDistinctLow();
    CodesDistinctHigh();
    CodesDistinctAcrossLow();
    CodesDistinctAcrossHigh();
  }

  /** The facts about the table the rest of the model uses. */
  lemma StatesTableWellFormed()
    ensures |States| == 50
    ensures forall k | 0 <= k < |States| :: WellFormedRow(States[k])
    ensures forall k, j | 0 <= k < j < |States| :: States[k].code != States[j].code
    ensures NamesLonger(States)
  {
    StatesRowsWellFormed();
    StatesCodesDistinct();
  }

  /** One pass of the loop body: replace the first occurrence of the entry's code, if any. */
  function ApplyEntry(query: string, e: StateEntry): (r: string)
    ensures !Includes(query, e.code) ==> r == query
    ensures Includes(query, e.code) ==>
      exists i :: FirstOccurrence(query, e.code, i) && r == query[..i] + e.name + query[i + |e.code|..]
  {
    if Includes(query, e.code) then ReplaceFirst(query, e.code, e.name) else query
  }

  /** The query after the loop has visited `table` in order, each step on the previous step's output. */
  function ApplyEntries(query: string, table: seq<StateEntry>): string
    decreases |table|
  {
    if table == [] then query
    else ApplyEntry(ApplyEntries(query, table[..|table| - 1]), table[|table| - 1])
  }

  /** Visiting `t1` then `t2` is visiting `t1 + t2`. */
  lemma {:induction false} ApplyEntriesAppend(query: string, t1: seq<StateEntry>, t2: seq<StateEntry>)
    ensures ApplyEntries(query, t1 + t2) == ApplyEntries(ApplyEntries(query, t1), t2)
    decreases |t2|
  {
    if t2 != [] {
      assert (t1 + t2)[..|t1 + t2| - 1] == t1 + t2[..|t2| - 1];
      ApplyEntriesAppend(query, t1, t2[..|t2| - 1]);
    } else {
      assert t1 + t2 == t1;
    }
  }

  /** When no code of the table occurs in the query, the query comes back unchanged. */
  lemma {:induction false} NoCodeNoChange(query: string, table: seq<StateEntry>)
    requires NoCodeIn(query, table)
    ensures ApplyEntries(query, table) == query
    decreases |table|
  {
    if table != [] {
      var prefix := table[..|table| - 1];
      assert forall k | 0 <= k < |prefix| :: prefix[k] == table[k];
      NoCodeNoChange(query, prefix);
    }
  }

  /** The output is never shorter than the query. */
  lemma {:induction false} NeverShorter(query: string, table: seq<StateEntry>)
    requires NamesLonger(table)
    ensures |ApplyEntries(query, table)| >= |query|
    decreases |table|
  {
    if table != [] {
      var prefix := table[..|table| - 1];
      assert forall k | 0 <= k < |prefix| :: prefix[k] == table[k];
      NeverShorter(query, prefix);
      var last := table[|table| - 1];
      var mid := ApplyEntries(query, prefix);
      assert |ApplyEntry(mid, last)| >= |mid| by {
        if Includes(mid, last.code) {
          assert |ReplaceFirst(mid, last.code, last.name)| == |mid| - |last.code| + |last.name|;
        }
      }
    }
  }

  /**
   * The query is left unchanged exactly when no code of the table occurs in
   * it; otherwise it grows.
   */
  lemma {:induction false} UnchangedIffNoCode(query: string, table: seq<StateEntry>)
    requires NamesLonger(table)
    ensures ApplyEntries(query, table) == query <==> NoCodeIn(query, table)
    ensures !NoCodeIn(query, table) ==> |ApplyEntries(query, table)| > |query|
    decreases |table|
  {
    if table == [] {
      return;
    }
    var prefix := table[..|table| - 1];
    var last := table[|table| - 1];
    assert forall k | 0 <= k < |prefix| :: prefix[k] == table[k];
    assert NoCodeIn(query, table) <==> NoCodeIn(query, prefix) && !Includes(query, last.code);
    var mid := ApplyEntries(query, prefix);
    NeverShorter(query, prefix);
    UnchangedIffNoCode(query, prefix);
    if Includes(mid, last.code) {
      assert |ApplyEntry(mid, last)| == |mid| - |last.code| + |last.name|;
    }
    if NoCodeIn(query, table) {
      NoCodeNoChange(query, table);
    }
  }

  /** `stateAbbreviationMapping`: the loop over the table. */
  method StateAbbreviationMapping(searchQuery: string) returns (r: string)
    ensures r == ApplyEntries(searchQuery, States)
    ensures |r| >= |searchQuery|
    ensures r == searchQuery <==> NoCodeIn(searchQuery, States)
  {
    r := searchQuery;
    for i := 0 to |States|
      invariant r == ApplyEntries(searchQuery, States[..i])
    {
      assert States[..i + 1][..i] == States[..i];
      if Includes(r, States[i].code) {
        r := ReplaceFirst(r, States[i].code, States[i].name);
      }
    }
    assert States[..|States|] == States;
    StatesTableWellFormed();
    UnchangedIffNoCode(searchQuery, States);
    NeverShorter(searchQuery, States);
  }

  // Worked queries. A code can only match where the text has two adjacent
  // upper-case letters, so each query below is followed through the table by
  // where those pairs are.

  /** Rows that match no upper-case pair of `s` leave `s` alone. */
  lemma SkipRows(s: string, rows: seq<StateEntry>)
    requires forall k | 0 <= k < |rows| :: WellFormedRow(rows[k])
    requires forall i, k | UpperPairAt(s, i) && 0 <= k < |rows| :: s[i..i + 2] != rows[k].code
    ensures ApplyEntries(s, rows) == s
  {
    forall k | 0 <= k < |rows|
      ensures !Includes(s, rows[k].code)
    {
      var code := rows[k].code;
      assert WellFormedRow(rows[k]);
      if i :| 0 <= i <= |s| - |code| && OccursAt(s, code, i) {
        assert s[i] == code[0] && s[i + 1] == code[1];
        assert UpperPairAt(s, i);
      }
    }
    NoCodeNoChange(s, rows);
  }

  /** A row that matches first at upper-case pair `p` of `s` is replaced there. */
  lemma ReplaceRow(s: string, e: StateEntry, p: nat)
    requires WellFormedRow(e) && UpperPairAt(s, p) && s[p..p + 2] == e.code
    requires forall i | UpperPairAt(s, i) && i < p :: s[i..i + 2] != e.code
    ensures ApplyEntry(s, e) == s[..p] + e.name + s[p + 2..]
  {
    assert OccursAt(s, e.code, p);
    var j := IndexOf(s, e.code).value;
    assert FirstOccurrence(s, e.code, j);
    assert s[j] == e.code[0] && s[j + 1] == e.code[1];
    assert UpperPairAt(s, j);
    assert j == p;
  }

  /** A query without an abbreviation is left alone; matching is case-sensitive. */
  lemma UnmatchedQueries()
    ensures ApplyEntries("Paris", States) == "Paris"
    ensures ApplyEntries("Austin tx", States) == "Austin tx"
  {
    StatesRowsWellFormed();
    assert forall i :: !UpperPairAt("Paris", i);
    assert forall i :: !UpperPairAt("Austin tx", i);
    SkipRows("Paris", States);
    SkipRows("Austin tx", States);
  }

  /** The pass over `table` seen around its row `k`: the rows before it, row `k`, the rows after it. */
  lemma {:induction false} ApplyEntriesAround(query: string, table: seq<StateEntry>, k: nat)
    requires k < |table|
    ensures ApplyEntries(query, table)
         == ApplyEntries(ApplyEntry(ApplyEntries(query, table[..k]), table[k]), table[k + 1..])
  {
    var e := table[k];
    calc {
      ApplyEntries(ApplyEntries(query, table[..k]), [e]);
      ApplyEntry(ApplyEntries(ApplyEntries(query, table[..k]), [e][..0]), e);
      { assert [e][..0] == []; }
      ApplyEntry(ApplyEntries(query, table[..k]), e);
    }
    ApplyEntriesAppend(query, table[..k], [e]);
    assert table[..k] + [e] == table[..k + 1];
    ApplyEntriesAppend(query, table[..k + 1], table[k + 1..]);
    assert table[..k + 1] + table[k + 1..] == table;
  }

  /** Row `k` is the only row of the table with its code. */
  lemma OnlyRowWithCode(k: nat)
    requires k < |States|
    ensures forall j | 0 <= j < |States| && j != k :: States[j].code != States[k].code
  {
    StatesCodesDistinct();
  }

  /** After a name without upper-case pairs, a space and a code, the code is the only upper-case pair. */
  lemma {:induction false} PairsOfCityAndCode(city: string, code: string)
    requires NoUpperPair(city) && |code| == 2 && IsUpper(code[0]) && IsUpper(code[1])
    ensures forall i | UpperPairAt(city + " " + code, i) :: i == |city| + 1
  {
    var q := city + " " + code;
    forall i | 0 <= i < |q| && i != |city| + 1
      ensures !UpperPairAt(q, i)
    {
      if i < |city| - 1 {
        assert q[i] == city[i] && q[i + 1] == city[i + 1];
        assert !UpperPairAt(city, i);
      }
    }
  }

  /** Joining two strings without upper-case pairs by a space makes none. */
  lemma {:induction false} NoPairsAcrossSpace(city: string, name: string)
    requires NoUpperPair(city) && NoUpperPair(name)
    ensures NoUpperPair(city + " " + name)
  {
    var r := city + " " + name;
    forall i | 0 <= i < |r|
      ensures !UpperPairAt(r, i)
    {
      if i < |city| - 1 {
        assert r[i] == city[i] && r[i + 1] == city[i + 1];
        assert !UpperPairAt(city, i);
      } else if i > |city| {
        var j := i - |city| - 1;
        assert r[i] == name[j] && (i + 1 < |r| ==> r[i + 1] == name[j + 1]);
        assert !UpperPairAt(name, j);
      }
    }
  }

  /**
   * A query made of a city name, a space and the code of row `k` comes back as the city
   * name, a space and the state's full name.
   */
  lemma CityAndStateCode(city: string, k: nat)
    requires k < |States|
    requires NoUpperPair(city)
    ensures ApplyEntries(city + " " + States[k].code, States) == city + " " + States[k].name
  {
    var e := States[k];
    var q, r, p := city + " " + e.code, city + " " + e.name, |city| + 1;
    StatesRowsWellFormed();
    StatesNamesWithoutPairs();
    OnlyRowWithCode(k);
    assert WellFormedRow(e);
    PairsOfCityAndCode(city, e.code);
    assert q[p..p + 2] == e.code;
    SkipRows(q, States[..k]);
    ReplaceRow(q, e, p);
    assert q[..p] + e.name + q[p + 2..] == r;
    NoPairsAcrossSpace(city, e.name);
    SkipRows(r, States[k + 1..]);
    ApplyEntriesAround(q, States, k);
  }

  /** A code is replaced by its full name; the rest of the table then finds nothing. */
  lemma AustinTexas()
    ensures ApplyEntries("Austin TX", States) == "Austin Texas"
  {
    var texas := States[42];
    assert texas == StateEntry("Texas", "TX");
    assert NoUpperPair("Austin");
    CityAndStateCode("Austin", 42);
    assert "Austin" + " " + texas.code == "Austin TX";
    assert "Austin" + " " + texas.name == "Austin Texas";
  }

  // "MAZ" in table order: row 0 (AZ) matches at index 1 and gives "MArizona", whose
  // only upper-case pair MA is then left for row 20.

  lemma MazArizonaRow()
    ensures ApplyEntries("MAZ", States[..1]) == "MArizona"
  {
    var q, arizona := "MAZ", States[0];
    assert arizona == StateEntry("Arizona", "AZ");
    assert forall i | UpperPairAt(q, i) :: i == 0 || i == 1;
    ReplaceRow(q, arizona, 1);
    assert q[..1] + arizona.name + q[3..] == "MArizona";
    ApplyEntriesAround(q, States[..1], 0);
    assert States[..1][..0] == [];
    assert States[..1][1..] == [];
  }

  lemma MazBeforeMassachusetts()
    ensures ApplyEntries("MArizona", States[1..20]) == "MArizona"
  {
    var q1 := "MArizona";
    assert States[20].code == "MA";
    assert forall i | UpperPairAt(q1, i) :: i == 0 && q1[i..i + 2] == "MA";
    StatesRowsWellFormed();
    OnlyRowWithCode(20);
    SkipRows(q1, States[1..20]);
  }

  lemma MazMassachusettsRow()
    ensures ApplyEntry("MArizona", States[20]) == "Massachusettsrizona"
  {
    var q1, massachusetts := "MArizona", States[20];
    assert massachusetts == StateEntry("Massachusetts", "MA");
    assert forall i | UpperPairAt(q1, i) :: i == 0;
    ReplaceRow(q1, massachusetts, 0);
    assert q1[..0] + massachusetts.name + q1[2..] == "Massachusettsrizona";
  }

  lemma MazAfterMassachusetts()
    ensures ApplyEntries("Massachusettsrizona", States[21..]) == "Massachusettsrizona"
  {
    var q2 := "Massachusettsrizona";
    assert forall i :: !UpperPairAt(q2, i);
    StatesRowsWellFormed();
    SkipRows(q2, States[21..]);
  }

  /** In table order, replacing AZ creates an MA that the later MA row then replaces. */
  lemma OrderMattersTableOrder()
    ensures ApplyEntries("MAZ", States) == "Massachusettsrizona"
  {
    var q := "MAZ";
    MazArizonaRow();
    MazBeforeMassachusetts();
    ApplyEntriesAppend(q, States[..1], States[1..20]);
    assert States[..1] + States[1..20] == States[..20];
    MazMassachusettsRow();
    MazAfterMassachusetts();
    ApplyEntriesAround(q, States, 20);
  }

  /** Visiting MA before AZ gives a different result: the AZ is gone before its row is visited. */
  lemma OrderMattersReversed()
    ensures ApplyEntries("MAZ", [States[20], States[0]]) == "MassachusettsZ"
  {
    var q, r1 := "MAZ", "MassachusettsZ";
    var arizona, massachusetts := States[0], States[20];
    assert arizona == StateEntry("Arizona", "AZ");
    assert massachusetts == StateEntry("Massachusetts", "MA");
    assert forall i | UpperPairAt(q, i) :: i == 0 || i == 1;
    assert forall i :: !UpperPairAt(r1, i);
    ReplaceRow(q, massachusetts, 0);
    assert q[..0] + massachusetts.name + q[2..] == r1;
    assert ApplyEntry(q, massachusetts) == r1;
    SkipRows(r1, [arizona]);
    assert ApplyEntries(r1, [arizona]) == r1;
    ApplyEntriesAround(q, [massachusetts, arizona], 0);
    assert [massachusetts, arizona][..0] == [];
    assert [massachusetts, arizona][1..] == [arizona];
    assert ApplyEntries(q, [massachusetts, arizona]) == r1;
  }

  // ---------------------------------------------------------------------------
  // The unit label.

  /** `setTemperatureUnitText`. */
  function UnitText(units: UnitSystem): (t: string)
    ensures t == "F" <==> units == Imperial
    ensures t == "C" <==> units != Imperial
  {
    if units == Imperial then "F" else "C"
  }

  /** The label names the scale in which temperatures are shown. */
  lemma UnitTextNamesShownScale(initial: UnitSystem, units: UnitSystem, t: real)
    requires initial != Unset
    ensures var r := Temperature(initial, units, t);
      r.Some? && (UnitText(units) == "F" ==> FahrenheitToCelsius(r.value) == InCelsius(t, initial))
              && (UnitText(units) == "C" ==> r.value == InCelsius(t, initial))
  {
  }

  // ---------------------------------------------------------------------------
  // What the page shows for the current conditions.

  /** The unit-dependent values `updateContent` writes into the page. */
  datatype CurrentView = CurrentView(
    temperature: Option<real>, todayHigh: Option<real>, todayLow: Option<real>,
    feelsLike: real, unitLabel: string,
    wind: Reading, direction: Option<Compass>, gust: Reading,
    pressure: real, visibility: Reading)

  /**
   * The view of the current conditions `updateContent` renders. All of its
   * unit-dependent parts agree on one scale: the label reads "F" exactly when
   * wind and gust carry the mph suffix and visibility the miles suffix, and
   * every temperature, read in the scale the label names, denotes the fetched
   * one. The gust is converted from metres per second like the wind, whatever
   * flag its reply was requested under.
   */
  function ConditionsView(initial: UnitSystem, units: UnitSystem, city: CityData, forecast: ForecastData): (v: CurrentView)
    ensures v.unitLabel == "F" <==> v.wind.suffix == " mph"
    ensures v.unitLabel == "F" <==> v.visibility.suffix == " miles"
    ensures v.gust.suffix == v.wind.suffix
    ensures v.temperature.Some? <==> initial != Unset
    ensures v.todayHigh.Some? <==> initial != Unset
    ensures v.todayLow.Some? <==> initial != Unset
    ensures var scale := if v.unitLabel == "F" then Imperial else Metric;
      && InCelsius(v.feelsLike, scale) == city.feelsLikeKelvin - 273.15
      && (v.temperature.Some? ==> InCelsius(v.temperature.value, scale) == InCelsius(forecast.currentTemp, initial))
      && (v.todayHigh.Some? ==> InCelsius(v.todayHigh.value, scale) == InCelsius(forecast.todayHigh, initial))
      && (v.todayLow.Some? ==> InCelsius(v.todayLow.value, scale) == InCelsius(forecast.todayLow, initial))
    ensures v.direction.None? <==> InGap(city.windDeg)
  {
    CurrentView(
      Temperature(initial, units, forecast.currentTemp),
      Temperature(initial, units, forecast.todayHigh),
      Temperature(initial, units, forecast.todayLow),
      FromKelvin(units, city.feelsLikeKelvin), UnitText(units),
      WindSpeed(units, city.windSpeed), WindDirection(city.windDeg),
      WindSpeed(units, match forecast.windGust case Some(g) => g case None => 0.0),
      Pressure(city.pressure), Visibility(units, city.visibility))
  }

  /** The view depends on `units` only through the scale the helpers use. */
  lemma ViewDependsOnShownScale(initial: UnitSystem, u1: UnitSystem, u2: UnitSystem, city: CityData, forecast: ForecastData)
    requires Shown(u1) == Shown(u2)
    ensures ConditionsView(initial, u1, city, forecast) == ConditionsView(initial, u2, city, forecast)
  {
    assert u1 == Imperial <==> u2 == Imperial;
  }

  /** Two unit toggles give back every displayed value, from any unit state. */
  lemma DoubleToggleRestoresView(initial: UnitSystem, u: UnitSystem, city: CityData, forecast: ForecastData)
    ensures ConditionsView(initial, Toggled(Toggled(u)), city, forecast) == ConditionsView(initial, u, city, forecast)
  {
    ToggleTwice(u);
    ViewDependsOnShownScale(initial, Toggled(Toggled(u)), u, city, forecast);
  }

  /** A single toggle changes the unit label. */
  lemma ToggleChangesLabel(initial: UnitSystem, u: UnitSystem, city: CityData, forecast: ForecastData)
    ensures ConditionsView(initial, Toggled(u), city, forecast).unitLabel != ConditionsView(initial, u, city, forecast).unitLabel
  {
  }

  // ---------------------------------------------------------------------------
  // The page object and its handlers.

  /** A request the search handler sends to the weather provider. */
  datatype Request =
    | CityRequest(query: string)
    | ForecastRequest(lat: real, lon: real, unitsFlag: string)

  class Page {
    var displayDailyForecast: int
    var localityInfo: string
    const weather: Weather

    constructor ()
      ensures displayDailyForecast == 1 && localityInfo == ""
      ensures fresh(weather) && weather.initialUnits == Unset && weather.units == Unset
      ensures weather.cityData == None && weather.forecastData == None
    {
      displayDailyForecast := 1;
      localityInfo := "";
      weather := new Weather();
    }

    /**
     * The click handler installed by `hideShowDailyForecast`: flips the flag
     * and returns the `display` style it gives the daily-forecast container.
     */
    method HideShowClick() returns (display: string)
      modifies this`displayDailyForecast
      ensures old(displayDailyForecast) == 1 ==> displayDailyForecast == 0
      ensures old(displayDailyForecast) != 1 ==> displayDailyForecast == 1
      ensures display == (if displayDailyForecast == 1 then "none" else "flex")
    {
      if displayDailyForecast == 1 {
        display := "flex";
        displayDailyForecast := 0;
      } else {
        display := "none";
        displayDailyForecast := 1;
      }
    }

    /**
     * The toggle-button handler: flips the units and re-renders from the
     * cached replies, which it leaves in place. Rendering throws (and the
     * button text is not updated) while either cached reply is unusable.
     */
    method ToggleButtonClick() returns (view: Option<CurrentView>, buttonText: Option<string>)
      modifies weather
      ensures weather.units == Toggled(old(weather.units))
      ensures weather.initialUnits == old(weather.initialUnits)
      ensures weather.cityData == old(weather.cityData) && weather.forecastData == old(weather.forecastData)
      ensures weather.latitude == old(weather.latitude) && weather.longitude == old(weather.longitude)
      ensures view == (if weather.cityData.Some? && weather.forecastData.Some?
                       then Some(ConditionsView(weather.initialUnits, weather.units,
                                                weather.cityData.value, weather.forecastData.value))
                       else None)
      ensures buttonText == (if view.Some? then Some("°" + UnitText(weather.units)) else None)
    {
      weather.ToggleUnits();
      var city := weather.cityData;
      var forecast := weather.forecastData;
      if city.Some? && forecast.Some? {
        view := Some(ConditionsView(weather.initialUnits, weather.units, city.value, forecast.value));
        buttonText := Some("°" + UnitText(weather.units));
      } else {
        view := None;
        buttonText := None;
      }
    }

    /**
     * The search-form handler. An empty query is refused before anything
     * else. Otherwise the rewritten query becomes the locality, the city reply
     * is cached, and, when it is usable, the forecast is requested at its
     * coordinates and cached; the page is rendered when both replies are usable.
     * The forecast request carries the flag of `units`, as `getWeatherData`
     * sets it, although `getTemperature` reads the reply in the scale of
     * `initialUnits` (see `SearchAfterToggle`).
     */
    method SubmitSearch(searchQuery: string, cityReply: Option<CityData>, forecastReply: Option<ForecastData>)
      returns (requests: seq<Request>, view: Option<CurrentView>)
      modifies this`localityInfo, weather
      ensures weather.initialUnits == old(weather.initialUnits) && weather.units == old(weather.units)
      ensures weather.latitude == old(weather.latitude) && weather.longitude == old(weather.longitude)
      ensures searchQuery == "" ==>
        requests == [] && view == None && localityInfo == old(localityInfo)
        && weather.cityData == old(weather.cityData) && weather.forecastData == old(weather.forecastData)
      ensures searchQuery != "" ==>
        localityInfo == ApplyEntries(searchQuery, States)
        && |requests| >= 1 && requests[0] == CityRequest(localityInfo)
        && weather.cityData == cityReply
      ensures searchQuery != "" && cityReply.None? ==>
        requests == [CityRequest(localityInfo)] && view == None
        && weather.forecastData == old(weather.forecastData)
      ensures searchQuery != "" && cityReply.Some? ==>
        requests == [CityRequest(localityInfo),
                     ForecastRequest(cityReply.value.lat, cityReply.value.lon,
                                     UnitsFlag(weather.units))]
        && weather.forecastData == forecastReply
        && view == (if forecastReply.Some?
                    then Some(ConditionsView(weather.initialUnits, weather.units, cityReply.value, forecastReply.value))
                    else None)
    {
      requests := [];
      view := None;
      if searchQuery == "" {
        return;
      }
      var query := StateAbbreviationMapping(searchQuery);
      localityInfo := query;
      requests := [CityRequest(query)];
      weather.SetCityData(cityReply);
      if cityReply.None? {
        return;
      }
      var city := cityReply.value;
      requests := requests + [ForecastRequest(city.lat, city.lon, UnitsFlag(weather.units))];
      weather.SetForecastData(forecastReply);
      if forecastReply.Some? {
        view := Some(ConditionsView(weather.initialUnits, weather.units, city, forecastReply.value));
      }
    }
  }

  /**
   * A page set up in some units, toggled once, then searched. The provider
   * answers the forecast request in the units its flag names, with true
   * temperature `c` (in Celsius). The page then shows `c` correctly only when
   * it is -40.
   */
  method SearchAfterToggle(p: Page, query: string, city: CityData, c: real)
    returns (requests: seq<Request>, view: Option<CurrentView>)
    requires p.weather.initialUnits != Unset && p.weather.units == p.weather.initialUnits
    requires query != ""
    modifies p, p.weather
    ensures p.weather.units == Toggled(p.weather.initialUnits)
    ensures |requests| == 2 && requests[1].ForecastRequest?
    ensures requests[1].unitsFlag == UnitsFlag(p.weather.units) != UnitsFlag(p.weather.initialUnits)
    ensures view.Some? && view.value.temperature.Some?
    ensures InCelsius(view.value.temperature.value, Shown(p.weather.units)) == c <==> c == -40.0
  {
    var _, _ := p.ToggleButtonClick();
    var t := Reported(c, UnitsFlag(p.weather.units));
    requests, view := p.SubmitSearch(query, Some(city), Some(ForecastData(t, t, t, None)));
    AsWrittenFlagMisreadsAfterToggle(p.weather.initialUnits, c);
  }
}
