/**
 * The static station directory and its search (the station table and
 * `searchStations`): a case-insensitive substring filter over name, city
 * and code, for queries of at least two characters, capped at eight results.
 */
module Stations {
  import opened Text
  import opened Seqs

  datatype Station = Station(code: string, name: string, city: string, state: string)

  /** Major Metro Cities */
  const MetroCities: seq<Station> := [
    Station("NDLS", "New Delhi", "Delhi", "Delhi"),
    Station("CST", "Chhatrapati Shivaji Terminus", "Mumbai", "Maharashtra"),
    Station("CSTM", "Mumbai CST", "Mumbai", "Maharashtra"),
    Station("BCT", "Mumbai Central", "Mumbai", "Maharashtra"),
    Station("LTT", "Lokmanya Tilak Terminus", "Mumbai", "Maharashtra"),
    Station("BYC", "Bellary Junction", "Bellary", "Karnataka"),
    Station("MAS", "Chennai Central", "Chennai", "Tamil Nadu"),
    Station("SBC", "KSR Bengaluru", "Bengaluru", "Karnataka"),
    Station("HWH", "Howrah Junction", "Kolkata", "West Bengal"),
    Station("KOAA", "Kolkata", "Kolkata", "West Bengal"),
    Station("SC", "Secunderabad Junction", "Hyderabad", "Telangana"),
    Station("HYB", "Hyderabad Deccan", "Hyderabad", "Telangana")
  ]

  /** North India */
  const NorthIndia: seq<Station> := [
    Station("AGC", "Agra Cantt", "Agra", "Uttar Pradesh"),
    Station("LKO", "Lucknow", "Lucknow", "Uttar Pradesh"),
    Station("CNB", "Kanpur Central", "Kanpur", "Uttar Pradesh"),
    Station("PNBE", "Patna Junction", "Patna", "Bihar"),
    Station("ASR", "Amritsar Junction", "Amritsar", "Punjab"),
    Station("JAT", "Jammu Tawi", "Jammu", "Jammu and Kashmir"),
    Station("CDG", "Chandigarh", "Chandigarh", "Chandigarh"),
    Station("DLI", "Old Delhi Junction", "Delhi", "Delhi"),
    Station("NZM", "Hazrat Nizamuddin", "Delhi", "Delhi"),
    Station("ANVT", "Anand Vihar Terminal", "Delhi", "Delhi")
  ]

  /** West India */
  const WestIndia: seq<Station> := [
    Station("ADI", "Ahmedabad Junction", "Ahmedabad", "Gujarat"),
    Station("SURAT", "Surat", "Surat", "Gujarat"),
    Station("BRC", "Vadodara Junction", "Vadodara", "Gujarat"),
    Station("JP", "Jaipur Junction", "Jaipur", "Rajasthan"),
    Station("JU", "Jodhpur Junction", "Jodhpur", "Rajasthan"),
    Station("UDZ", "Udaipur City", "Udaipur", "Rajasthan"),
    Station("PUNE", "Pune Junction", "Pune", "Maharashtra"),
    Station("NGP", "Nagpur", "Nagpur", "Maharashtra")
  ]

  /** South India */
  const SouthIndia: seq<Station> := [
    Station("CBE", "Coimbatore Junction", "Coimbatore", "Tamil Nadu"),
    Station("MDU", "Madurai Junction", "Madurai", "Tamil Nadu"),
    Station("TVC", "Trivandrum Central", "Thiruvananthapuram", "Kerala"),
    Station("ERS", "Ernakulam Junction", "Kochi", "Kerala"),
    Station("CLT", "Kozhikode", "Kozhikode", "Kerala"),
    Station("MYS", "Mysore Junction", "Mysore", "Karnataka"),
    Station("YPR", "Yesvantpur Junction", "Bengaluru", "Karnataka"),
    Station("VSKP", "Visakhapatnam", "Visakhapatnam", "Andhra Pradesh"),
    Station("BZA", "Vijayawada Junction", "Vijayawada", "Andhra Pradesh")
  ]

  /** East India */
  const EastIndia: seq<Station> := [
    Station("SDAH", "Sealdah", "Kolkata", "West Bengal"),
    Station("BBS", "Bhubaneswar", "Bhubaneswar", "Odisha"),
    Station("PURI", "Puri", "Puri", "Odisha"),
    Station("GHY", "Guwahati", "Guwahati", "Assam"),
    Station("RNC", "Ranchi Junction", "Ranchi", "Jharkhand")
  ]

  /** Additional Important Stations */
  const AdditionalStations: seq<Station> := [
    Station("BPL", "Bhopal Junction", "Bhopal", "Madhya Pradesh"),
    Station("INDB", "Indore Junction", "Indore", "Madhya Pradesh"),
    Station("DBRG", "Dibrugarh", "Dibrugarh", "Assam"),
    Station("GKP", "Gorakhpur Junction", "Gorakhpur", "Uttar Pradesh"),
    Station("ALD", "Allahabad Junction", "Prayagraj", "Uttar Pradesh"),
    Station("DDN", "Dehradun", "Dehradun", "Uttarakhand"),
    Station("HW", "Haridwar Junction", "Haridwar", "Uttarakhand"),
    Station("SVDK", "Shri Mata Vaishno Devi Katra", "Katra", "Jammu and Kashmir"),
    Station("UHL", "Una Himachal", "Una", "Himachal Pradesh"),
    Station("MMCT", "Mumbai Central", "Mumbai", "Maharashtra"),
    Station("ST", "Surat", "Surat", "Gujarat"),
    Station("RTM", "Ratlam Junction", "Ratlam", "Madhya Pradesh")
  ]

  /** The whole directory, in table order. */
  const Table: seq<Station> := MetroCities + NorthIndia + WestIndia + SouthIndia + EastIndia + AdditionalStations

  /** Shorter queries are not searched. */
  const MinQueryLength := 2
  /** At most this many stations are returned. */
  const MaxResults := 8

  /** The station's name, city or code, lower-cased, contains `term`. */
  predicate Matches(st: Station, term: string) {
    Contains(Lower(st.name), term) || Contains(Lower(st.city), term) || Contains(Lower(st.code), term)
  }

  /** Every station of the table that matches `term`, in table order. */
  function Matching(term: string): seq<Station> {
    Filter(Table, (st: Station) => Matches(st, term))
  }

  /** `searchStations(query)` */
  function SearchStations(query: string): (r: seq<Station>)
    ensures |query| < MinQueryLength ==> r == []
    ensures |r| <= MaxResults
    ensures forall i :: 0 <= i < |r| ==> r[i] in Table && Matches(r[i], Lower(query))
  {
    if |query| < MinQueryLength then [] else Take(Matching(Lower(query)), MaxResults)
  }

  /**
   * The result is the first min(8, #matches) matching stations in table
   * order: it is exactly the set of matches among some prefix of the table.
   */
  lemma SearchKeepsTableOrder(query: string)
    requires |query| >= MinQueryLength
    ensures |SearchStations(query)| == if |Matching(Lower(query))| <= MaxResults then |Matching(Lower(query))| else MaxResults
    ensures exists k :: 0 <= k <= |Table| && SearchStations(query) == Filter(Table[..k], (st: Station) => Matches(st, Lower(query)))
  {
    var all := Matching(Lower(query));
    var n := if |all| <= MaxResults then |all| else MaxResults;
    FilterPrefix(Table, (st: Station) => Matches(st, Lower(query)), n);
    assert SearchStations(query) == all[..n];
  }

  /** When at most eight stations match, every one of them is returned. */
  lemma SearchComplete(query: string, st: Station)
    requires |query| >= MinQueryLength && |Matching(Lower(query))| <= MaxResults
    requires st in Table && Matches(st, Lower(query))
    ensures st in SearchStations(query)
  {
    var i :| 0 <= i < |Table| && Table[i] == st;
    assert st in Matching(Lower(query));
  }

  /** The search is case-insensitive: it sees only the lower-cased query. */
  lemma SearchIgnoresCase(query: string)
    ensures SearchStations(query) == SearchStations(Lower(query))
  {
    LowerIdempotent(query);
  }

  /** No two stations of the table share a code (the suggestion list keys on it). */
  predicate CodesDistinct(s: seq<Station>) {
    forall i, j :: 0 <= i < j < |s| ==> s[i].code != s[j].code
  }

  predicate CodesDisjoint(a: seq<Station>, b: seq<Station>) {
    forall i, j :: 0 <= i < |a| && 0 <= j < |b| ==> a[i].code != b[j].code
  }

  lemma CodesDistinctAppend(a: seq<Station>, b: seq<Station>)
    requires CodesDistinct(a) && CodesDistinct(b) && CodesDisjoint(a, b)
    ensures CodesDistinct(a + b)
  {
    forall i, j | 0 <= i < j < |a + b| ensures (a + b)[i].code != (a + b)[j].code {
      if i >= |a| {
        assert (a + b)[i] == b[i - |a|];
      }
      if j >= |a| {
        assert (a + b)[j] == b[j - |a|];
      }
    }
  }

  lemma CodesDisjointAppend(a: seq<Station>, b: seq<Station>, c: seq<Station>)
    requires CodesDisjoint(a, c) && CodesDisjoint(b, c)
    ensures CodesDisjoint(a + b, c)
  {
    forall i, j | 0 <= i < |a + b| && 0 <= j < |c| ensures (a + b)[i].code != c[j].code {
      if i >= |a| {
        assert (a + b)[i] == b[i - |a|];
      }
    }
  }

  // The fact checked row group by row group, each against the groups before it.
  lemma MetroCitiesCodesDistinct() ensures CodesDistinct(MetroCities) { }
  lemma NorthIndiaCodesDistinct() ensures CodesDistinct(NorthIndia) { }
  lemma WestIndiaCodesDistinct() ensures CodesDistinct(WestIndia) { }
  lemma SouthIndiaCodesDistinct() ensures CodesDistinct(SouthIndia) { }
  lemma EastIndiaCodesDistinct() ensures CodesDistinct(EastIndia) { }
  lemma AdditionalStationsCodesDistinct() ensures CodesDistinct(AdditionalStations) { }
  lemma MetroCitiesNorthIndiaDisjoint() ensures CodesDisjoint(MetroCities, NorthIndia) { }
  lemma MetroCitiesWestIndiaDisjoint() ensures CodesDisjoint(MetroCities, WestIndia) { }
  lemma NorthIndiaWestIndiaDisjoint() ensures CodesDisjoint(NorthIndia, WestIndia) { }
  lemma MetroCitiesSouthIndiaDisjoint() ensures CodesDisjoint(MetroCities, SouthIndia) { }
  lemma NorthIndiaSouthIndiaDisjoint() ensures CodesDisjoint(NorthIndia, SouthIndia) { }
  lemma WestIndiaSouthIndiaDisjoint() ensures CodesDisjoint(WestIndia, SouthIndia) { }
  lemma MetroCitiesEastIndiaDisjoint() ensures CodesDisjoint(MetroCities, EastIndia) { }
  lemma NorthIndiaEastIndiaDisjoint() ensures CodesDisjoint(NorthIndia, EastIndia) { }
  lemma WestIndiaEastIndiaDisjoint() ensures CodesDisjoint(WestIndia, EastIndia) { }
  lemma SouthIndiaEastIndiaDisjoint() ensures CodesDisjoint(SouthIndia, EastIndia) { }
  lemma MetroCitiesAdditionalStationsDisjoint() ensures CodesDisjoint(MetroCities, AdditionalStations) { }
  lemma NorthIndiaAdditionalStationsDisjoint() ensures CodesDisjoint(NorthIndia, AdditionalStations) { }
  lemma WestIndiaAdditionalStationsDisjoint() ensures CodesDisjoint(WestIndia, AdditionalStations) { }
  lemma SouthIndiaAdditionalStationsDisjoint() ensures CodesDisjoint(SouthIndia, AdditionalStations) { }
  lemma EastIndiaAdditionalStationsDisjoint() ensures CodesDisjoint(EastIndia, AdditionalStations) { }

  lemma TableCodesUnique()
    ensures CodesDistinct(Table)
  {
    MetroCitiesCodesDistinct();
    NorthIndiaCodesDistinct();
    WestIndiaCodesDistinct();
    SouthIndiaCodesDistinct();
    EastIndiaCodesDistinct();
    AdditionalStationsCodesDistinct();
    MetroCitiesNorthIndiaDisjoint();
    MetroCitiesWestIndiaDisjoint();
    NorthIndiaWestIndiaDisjoint();
    MetroCitiesSouthIndiaDisjoint();
    NorthIndiaSouthIndiaDisjoint();
    WestIndiaSouthIndiaDisjoint();
    MetroCitiesEastIndiaDisjoint();
    NorthIndiaEastIndiaDisjoint();
    WestIndiaEastIndiaDisjoint();
    SouthIndiaEastIndiaDisjoint();
    MetroCitiesAdditionalStationsDisjoint();
    NorthIndiaAdditionalStationsDisjoint();
    WestIndiaAdditionalStationsDisjoint();
    SouthIndiaAdditionalStationsDisjoint();
    EastIndiaAdditionalStationsDisjoint();
    CodesDistinctAppend(MetroCities, NorthIndia);
    CodesDisjointAppend(MetroCities, NorthIndia, WestIndia);
    CodesDistinctAppend(MetroCities + NorthIndia, WestIndia);
    CodesDisjointAppend(MetroCities, NorthIndia, SouthIndia);
    CodesDisjointAppend(MetroCities + NorthIndia, WestIndia, SouthIndia);
    CodesDistinctAppend(MetroCities + NorthIndia + WestIndia, SouthIndia);
    CodesDisjointAppend(MetroCities, NorthIndia, EastIndia);
    CodesDisjointAppend(MetroCities + NorthIndia, WestIndia, EastIndia);
    CodesDisjointAppend(MetroCities + NorthIndia + WestIndia, SouthIndia, EastIndia);
    CodesDistinctAppend(MetroCities + NorthIndia + WestIndia + SouthIndia, EastIndia);
    CodesDisjointAppend(MetroCities, NorthIndia, AdditionalStations);
    CodesDisjointAppend(MetroCities + NorthIndia, WestIndia, AdditionalStations);
    CodesDisjointAppend(MetroCities + NorthIndia + WestIndia, SouthIndia, AdditionalStations);
    CodesDisjointAppend(MetroCities + NorthIndia + WestIndia + SouthIndia, EastIndia, AdditionalStations);
    CodesDistinctAppend(MetroCities + NorthIndia + WestIndia + SouthIndia + EastIndia, AdditionalStations);
  }
}
