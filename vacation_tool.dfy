/**
 * The country-information tool (tools/vacation_tool.py): shaping the
 * REST Countries response into a record, the record into a five-field
 * summary, and the summary into a fixed text report.
 *
 * The HTTP request is a parameter: `get` maps the request URL to the
 * response's status code and decoded JSON list.
 */
module VacationTool {
  import opened Wrappers
  import opened Text

  // ---------------------------------------------------------------------------
  // The JSON the REST Countries API returns, restricted to the requested fields

  /** One value of the `currencies` object; either key may be missing. */
  datatype CurrencyDetails = CurrencyDetails(name: Option<string>, symbol: Option<string>)

  /** The `currencies` object: currency code to details, in the dictionary's iteration order. */
  type CurrencyTable = seq<(string, CurrencyDetails)>

  /** The `name` object. */
  datatype CountryName = CountryName(common: Option<string>, official: Option<string>)

  /** One element of the response list; every key may be missing. */
  datatype CountryRecord = CountryRecord(
    name: Option<CountryName>,
    capital: Option<seq<string>>,
    region: Option<string>,
    currencies: Option<CurrencyTable>)

  /** The dictionary `extract_country_details` builds. */
  datatype CountryInfo = CountryInfo(name: string, officialName: string, capital: string, region: string, currencies: string)

  /** `d.get(key, default)` on an optional string. */
  function GetOr(value: Option<string>, default: string): string
  {
    if value.Some? then value.value else default
  }

  // ---------------------------------------------------------------------------
  // format_currency_information

  /** The line for one currency: "name (code) - symbol", or "name (code)" without a symbol. */
  function CurrencyEntry(code: string, details: CurrencyDetails): string
  {
    var name := GetOr(details.name, code);
    var symbol := GetOr(details.symbol, "");
    if symbol != "" then name + " (" + code + ") - " + symbol else name + " (" + code + ")"
  }

  /** The list the loop of `format_currency_information` builds: one entry per currency, in order. */
  function CurrencyEntries(table: CurrencyTable): (entries: seq<string>)
    ensures |entries| == |table|
    ensures forall i :: 0 <= i < |table| ==> entries[i] == CurrencyEntry(table[i].0, table[i].1)
  {
    if |table| == 0 then [] else [CurrencyEntry(table[0].0, table[0].1)] + CurrencyEntries(table[1..])
  }

  /** What `format_currency_information` returns. */
  function CurrencySummary(table: CurrencyTable): string
  {
    if |table| == 0 then "Unknown" else Join(CurrencyEntries(table), ", ")
  }

  /** `format_currency_information`, with its loop over the currencies. */
  method FormatCurrencyInformation(currenciesData: CurrencyTable) returns (summary: string)
    ensures summary == CurrencySummary(currenciesData)
  {
    if |currenciesData| == 0 {
      return "Unknown";
    }
    var currencyList: seq<string> := [];
    for i := 0 to |currenciesData|
      invariant |currencyList| == i
      invariant forall j :: 0 <= j < i ==> currencyList[j] == CurrencyEntry(currenciesData[j].0, currenciesData[j].1)
    {
      var (code, details) := currenciesData[i];
      var name := if details.name.Some? then details.name.value else code;
      var symbol := if details.symbol.Some? then details.symbol.value else "";
      if symbol != "" {
        currencyList := currencyList + [name + " (" + code + ") - " + symbol];
      } else {
        currencyList := currencyList + [name + " (" + code + ")"];
      }
    }
    assert currencyList == CurrencyEntries(currenciesData);
    summary := Join(currencyList, ", ");
  }

  /**
   * A currency entry: the name, falling back to the code only when the
   * name is missing, then the code in parentheses, then " - " and the
   * symbol when the symbol is present and non-empty.
   */
  lemma CurrencyEntryShape(code: string, details: CurrencyDetails)
    ensures var name := if details.name.None? then code else details.name.value;
      var entry := CurrencyEntry(code, details);
      (details.symbol.Some? && details.symbol.value != "" ==>
         entry == name + " (" + code + ") - " + details.symbol.value)
      && (details.symbol.None? || details.symbol.value == "" ==> entry == name + " (" + code + ")")
  {
  }

  lemma EntryHasParenthesis(code: string, details: CurrencyDetails)
    ensures '(' in CurrencyEntry(code, details)
  {
    var name := GetOr(details.name, code);
    var e := CurrencyEntry(code, details);
    assert e[|name| + 1] == '(';
  }

  /** The summary is "Unknown" exactly when there are no currencies. */
  lemma SummaryUnknownIffEmpty(table: CurrencyTable)
    ensures CurrencySummary(table) == "Unknown" <==> |table| == 0
  {
    if |table| > 0 {
      var entries := CurrencyEntries(table);
      EntryHasParenthesis(table[0].0, table[0].1);
      JoinKeepsCharacters(entries, ", ", 0, '(');
      assert '(' !in "Unknown";
    }
  }

  /** A further currency adds its own entry at the end, after ", ". */
  lemma SummaryAppend(table: CurrencyTable, code: string, details: CurrencyDetails)
    requires |table| > 0
    ensures CurrencySummary(table + [(code, details)]) == CurrencySummary(table) + ", " + CurrencyEntry(code, details)
  {
    var t := table + [(code, details)];
    assert CurrencyEntries(t) == CurrencyEntries(table) + [CurrencyEntry(code, details)];
    JoinAppend(CurrencyEntries(table), CurrencyEntry(code, details), ", ");
  }

  // ---------------------------------------------------------------------------
  // extract_country_details

  /** `extract_country_details`: every missing field reads "Unknown"; a capital list is joined with ", ". */
  function ExtractCountryDetails(data: CountryRecord): CountryInfo
  {
    CountryInfo(
      name := if data.name.Some? then GetOr(data.name.value.common, "Unknown") else "Unknown",
      officialName := if data.name.Some? then GetOr(data.name.value.official, "Unknown") else "Unknown",
      capital := if data.capital.Some? then Join(data.capital.value, ", ") else "Unknown",
      region := GetOr(data.region, "Unknown"),
      currencies := CurrencySummary(if data.currencies.Some? then data.currencies.value else []))
  }

  /** The defaults of `extract_country_details`. */
  lemma ExtractDefaults(data: CountryRecord)
    ensures var info := ExtractCountryDetails(data);
      (data.name.None? || data.name.value.common.None? ==> info.name == "Unknown")
      && (data.name.None? || data.name.value.official.None? ==> info.officialName == "Unknown")
      && (data.region.None? ==> info.region == "Unknown")
      && (data.capital.None? ==> info.capital == "Unknown")
      && (data.capital == Some([]) ==> info.capital == "")
      && (forall c :: data.capital == Some([c]) ==> info.capital == c)
      && (data.currencies.None? || data.currencies == Some([]) ==> info.currencies == "Unknown")
  {
  }

  /** Present fields are copied unchanged, and currencies are summarised. */
  lemma ExtractPresentFields(data: CountryRecord)
    ensures var info := ExtractCountryDetails(data);
      (data.name.Some? && data.name.value.common.Some? ==> info.name == data.name.value.common.value)
      && (data.name.Some? && data.name.value.official.Some? ==> info.officialName == data.name.value.official.value)
      && (data.region.Some? ==> info.region == data.region.value)
      && (data.capital.Some? ==> info.capital == Join(data.capital.value, ", "))
      && (data.currencies.Some? ==> info.currencies == CurrencySummary(data.currencies.value))
  {
  }

  // ---------------------------------------------------------------------------
  // format_country_information

  /** The lines of the report, without their '\n': a header, an empty line, then four labelled fields. */
  function ReportLines(info: CountryInfo, userId: string): seq<string>
  {
    [ "Country Information for " + info.name + " (User: " + userId + "):",
      "",
      "Official Name: " + info.officialName,
      "Capital: " + info.capital,
      "Region: " + info.region,
      "Currency: " + info.currencies ]
  }

  /** What `format_country_information` returns. */
  function CountryReport(info: CountryInfo, userId: string): string
  {
    JoinLines(ReportLines(info, userId))
  }

  /** `format_country_information`, accumulating the report one line at a time. */
  method FormatCountryInformation(countryInfo: CountryInfo, userId: string) returns (response: string)
    ensures response == CountryReport(countryInfo, userId)
  {
    ghost var header := "Country Information for " + countryInfo.name + " (User: " + userId + "):";
    response := "Country Information for " + countryInfo.name + " (User: " + userId + "):\n\n";
    ghost var done := [header, ""];
    assert response == header + "\n" + "" + "\n";
    JoinLinesAppend([header], "");
    assert response == JoinLines(done);
    response := response + "Official Name: " + countryInfo.officialName + "\n";
    AppendLine(done, "Official Name: ", countryInfo.officialName);
    done := done + ["Official Name: " + countryInfo.officialName];
    response := response + "Capital: " + countryInfo.capital + "\n";
    AppendLine(done, "Capital: ", countryInfo.capital);
    done := done + ["Capital: " + countryInfo.capital];
    response := response + "Region: " + countryInfo.region + "\n";
    AppendLine(done, "Region: ", countryInfo.region);
    done := done + ["Region: " + countryInfo.region];
    response := response + "Currency: " + countryInfo.currencies + "\n";
    AppendLine(done, "Currency: ", countryInfo.currencies);
    done := done + ["Currency: " + countryInfo.currencies];
    assert done == ReportLines(countryInfo, userId);
  }

  /** Appending a labelled line to the text of `done`, as the method does with `+=`. */
  lemma AppendLine(done: seq<string>, tag: string, value: string)
    ensures JoinLines(done) + tag + value + "\n" == JoinLines(done + [tag + value])
  {
    JoinLinesAppend(done, tag + value);
  }

  lemma NoNewlineConcat(a: string, b: string)
    requires NoNewline(a) && NoNewline(b)
    ensures NoNewline(a + b)
  {
    forall k | 0 <= k < |a + b| ensures (a + b)[k] != '\n' {
      if k >= |a| { assert (a + b)[k] == b[k - |a|]; }
    }
  }

  /**
   * When no field holds a line break, the report reads back line by line as
   * the header, an empty line, and the Official Name, Capital, Region and
   * Currency lines, in that order, each of them ended by '\n'.
   */
  lemma ReportReadsBack(info: CountryInfo, userId: string)
    requires NoNewline(info.name) && NoNewline(userId) && NoNewline(info.officialName)
    requires NoNewline(info.capital) && NoNewline(info.region) && NoNewline(info.currencies)
    ensures SplitLines(CountryReport(info, userId)) == ReportLines(info, userId)
  {
    NoNewlineConcat("Country Information for ", info.name);
    NoNewlineConcat("Country Information for " + info.name, " (User: ");
    NoNewlineConcat("Country Information for " + info.name + " (User: ", userId);
    NoNewlineConcat("Country Information for " + info.name + " (User: " + userId, "):");
    NoNewlineConcat("Official Name: ", info.officialName);
    NoNewlineConcat("Capital: ", info.capital);
    NoNewlineConcat("Region: ", info.region);
    NoNewlineConcat("Currency: ", info.currencies);
    SplitJoinLines(ReportLines(info, userId));
  }

  // ---------------------------------------------------------------------------
  // fetch_country_data, with the HTTP request as a parameter

  /** The status code and the decoded JSON list of an HTTP response. */
  datatype HttpResponse = HttpResponse(status: nat, data: seq<CountryRecord>)

  /** The dictionary `fetch_country_data` returns: an `error` entry, or the first country. */
  datatype FetchOutcome = FetchFailed(error: string) | Fetched(record: CountryRecord)

  function ApiUrl(countryName: string): string
  {
    "https://restcountries.com/v3.1/name/" + countryName + "?fields=name,capital,currencies,region"
  }

  const StatusErrorPrefix := "Failed to get country info: "

  /** `fetch_country_data`: reject a non-200 status, then an empty list, else take the first element. */
  function FetchCountryData(countryName: string, get: string -> HttpResponse): FetchOutcome
  {
    var response := get(ApiUrl(countryName));
    if response.status != 200 then FetchFailed(StatusErrorPrefix + NatToString(response.status))
    else if |response.data| == 0 then FetchFailed("No country found with name: " + countryName)
    else Fetched(response.data[0])
  }

  /**
   * The three outcomes of the response check; a failed status is reported
   * with its code, which reads back from the message.
   */
  lemma FetchOutcomes(countryName: string, get: string -> HttpResponse)
    ensures var response := get(ApiUrl(countryName));
      var out := FetchCountryData(countryName, get);
      (response.status != 200 ==>
         out.FetchFailed? && HasPrefix(out.error, StatusErrorPrefix)
         && IsDigits(out.error[|StatusErrorPrefix|..])
         && StringToNat(out.error[|StatusErrorPrefix|..]) == response.status)
      && (response.status == 200 && |response.data| == 0 ==>
         out == FetchFailed("No country found with name: " + countryName))
      && (response.status == 200 && |response.data| > 0 ==> out == Fetched(response.data[0]))
  {
    var response := get(ApiUrl(countryName));
    if response.status != 200 {
      var digits := NatToString(response.status);
      PrefixOfConcat(StatusErrorPrefix, digits);
      assert (StatusErrorPrefix + digits)[|StatusErrorPrefix|..] == digits;
      NatToStringRoundTrip(response.status);
    }
  }

  // ---------------------------------------------------------------------------
  // _run

  /** The keyword arguments `_run` may receive; `None` is an absent key. */
  datatype VacationArgs = VacationArgs(location: Option<string>, userId: Option<string>)

  const MissingLocationMessage := "Please provide a country name."
  const FetchErrorPrefix := "Error fetching country information: "

  /** `_run`. */
  function Run(args: VacationArgs, get: string -> HttpResponse): string
  {
    var userId := GetOr(args.userId, "default_user");
    if args.location.None? || args.location.value == "" then MissingLocationMessage
    else
      match FetchCountryData(args.location.value, get)
      case FetchFailed(e) => FetchErrorPrefix + e
      case Fetched(record) => CountryReport(ExtractCountryDetails(record), userId)
  }

  /** An empty or missing location is answered at once, whatever the server would say. */
  lemma RunWithoutLocation(args: VacationArgs, get: string -> HttpResponse, otherGet: string -> HttpResponse)
    requires args.location.None? || args.location.value == ""
    ensures Run(args, get) == MissingLocationMessage
    ensures Run(args, get) == Run(args, otherGet)
  {
  }

  /**
   * With a location, a failed fetch is reported after "Error fetching
   * country information: " and no report is formatted; a fetched country is
   * formatted for the given user, or for "default_user".
   */
  lemma RunWithLocation(args: VacationArgs, get: string -> HttpResponse)
    requires args.location.Some? && args.location.value != ""
    ensures var out := FetchCountryData(args.location.value, get);
      var userId := if args.userId.Some? then args.userId.value else "default_user";
      (out.FetchFailed? ==> Run(args, get) == FetchErrorPrefix + out.error)
      && (out.Fetched? ==> Run(args, get) == CountryReport(ExtractCountryDetails(out.record), userId))
  {
  }

  /** End to end: a non-200 status becomes an error answer that quotes the status code. */
  lemma RunReportsFailedStatus(args: VacationArgs, get: string -> HttpResponse)
    requires args.location.Some? && args.location.value != ""
    requires get(ApiUrl(args.location.value)).status != 200
    ensures Run(args, get) ==
      FetchErrorPrefix + StatusErrorPrefix + NatToString(get(ApiUrl(args.location.value)).status)
  {
  }

  /** A report never begins like an error answer or the request for a location. */
  lemma ReportIsNotAnError(info: CountryInfo, userId: string, e: string)
    ensures CountryReport(info, userId) != FetchErrorPrefix + e
    ensures CountryReport(info, userId) != MissingLocationMessage
  {
    var r := CountryReport(info, userId);
    var lines := ReportLines(info, userId);
    assert r == lines[0] + ("\n" + JoinLines(lines[1..]));
    assert r[0] == lines[0][0] == 'C';
    assert (FetchErrorPrefix + e)[0] == 'E';
    assert MissingLocationMessage[0] == 'P';
  }
}
